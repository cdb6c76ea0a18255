/** Revoked means gone: what a finished revalidation guarantees in every interleaving. */
module HubSafety {
  import opened Common
  import opened HubModel
  import opened HubProtocol
  import opened Runs

  // ---- what always holds ----

  ghost predicate HomesRecorded(s: State) {
    forall c, r :: c in s.conns && r in s.conns[c].rooms ==> r in s.home && s.conns[c].rooms[r] == s.home[r]
  }

  predicate HasClient(op: Op) {
    IsSubscribing(op) || op.Entering?
  }

  ghost predicate ClientsUsed(s: State) {
    && (forall c :: c in s.conns ==> c in s.used)
    && (forall o :: o in s.ops && HasClient(s.ops[o]) ==> s.ops[o].c in s.used)
  }

  /** A connection that is still entering is not registered and nothing else works on it. */
  ghost predicate EnteringAlone(s: State) {
    && (forall o :: o in s.ops && s.ops[o].Entering? ==> s.ops[o].c !in s.conns)
    && (forall o, p :: o in s.ops && p in s.ops && s.ops[o].Entering? && HasClient(s.ops[p]) && s.ops[o].c == s.ops[p].c ==> o == p)
  }

  /** Nobody has read an epoch that is yet to come. */
  ghost predicate EpochsRead(s: State) {
    forall o :: o in s.ops && IsSubscribing(s.ops[o]) && s.ops[o].c in s.conns ==>
      s.conns[s.ops[o].c].user == s.ops[o].user && s.ops[o].epoch <= Epoch(s, s.ops[o].user)
  }

  ghost predicate WorkspacesRead(s: State) {
    forall o :: o in s.ops && (s.ops[o].Authorized? || s.ops[o].Acquiring?) ==>
      HasWorkspace(s, s.ops[o].t) && s.ops[o].workspace == WorkspaceOf(s, s.ops[o].t)
  }

  ghost predicate Inv(s: State) {
    HomesRecorded(s) && ClientsUsed(s) && EnteringAlone(s) && EpochsRead(s) && WorkspacesRead(s)
  }

  /** Only operations and what no invariant mentions differ. */
  ghost predicate SameWorld(s: State, n: State) {
    n.conns == s.conns && n.used == s.used && n.epochs == s.epochs && n.home == s.home
  }

  lemma GaveKeepsInv(s: State, n: State)
    requires Inv(s) && n == s.(conns := n.conns, owed := n.owed) && forall c :: c in n.conns ==> c in s.conns
    requires forall c, r :: c in n.conns && r in n.conns[c].rooms ==> r in s.conns[c].rooms && n.conns[c].rooms[r] == s.conns[c].rooms[r]
    requires forall c :: c in n.conns ==> n.conns[c].user == s.conns[c].user
    ensures Inv(n)
  {
  }

  lemma DropOpKeepsInv(s: State, o: Ulid, n: State)
    requires Inv(s) && SameWorld(s, n) && n.ops == s.ops - {o}
    ensures Inv(n)
  {
  }

  /** An operation starts, or moves on with what it had read. */
  lemma SetOpKeepsInv(s: State, o: Ulid, op: Op, n: State)
    requires Inv(s) && SameWorld(s, n) && n.ops == s.ops[o := op]
    requires IsRevalidating(op) || IsSubscribing(op)
    requires IsSubscribing(op) ==>
               || (o in s.ops && IsSubscribing(s.ops[o]) && op.c == s.ops[o].c && op.user == s.ops[o].user && op.epoch == s.ops[o].epoch)
               || (op.c in s.conns && op.user == s.conns[op.c].user && op.epoch == Epoch(s, op.user))
    requires op.Authorized? || op.Acquiring? ==> HasWorkspace(s, op.t) && op.workspace == WorkspaceOf(s, op.t)
    ensures Inv(n)
  {
  }

  lemma RegisterKeepsInv(s: State, step: Step, n: State)
    requires Inv(s) && Next(s, step, n) && (step.RegisterBegin? || step.RegisterEnd?)
    ensures Inv(n)
  {
    match step
    case RegisterBegin(o, c, user, session) =>
    case RegisterEnd(o) =>
      if s.shuttingDown { DropOpKeepsInv(s, o, n); }
  }

  lemma SubscribeKeepsInv(s: State, step: Step, n: State)
    requires Inv(s) && Next(s, step, n)
    requires step.SubscribeBegin? || step.Authorize? || step.Acquire? || step.AcquireFail? || step.SubscribeEnd?
    ensures Inv(n)
  {
    match step
    case SubscribeBegin(o, c, t) => SubscribeBeginKeepsInv(s, o, c, t, n);
    case Authorize(o) => AuthorizeKeepsInv(s, o, n);
    case Acquire(o) => AcquireKeepsInv(s, o, n);
    case AcquireFail(o) => DropOpKeepsInv(s, o, n);
    case SubscribeEnd(o) => SubscribeEndKeepsInv(s, o, n);
  }

  lemma SubscribeBeginKeepsInv(s: State, o: Ulid, c: Ulid, t: Topic, n: State)
    requires Inv(s) && Next(s, SubscribeBegin(o, c, t), n)
    ensures Inv(n)
  {
    SetOpKeepsInv(s, o, n.ops[o], n);
  }

  lemma AuthorizeKeepsInv(s: State, o: Ulid, n: State)
    requires Inv(s) && Next(s, Authorize(o), n)
    ensures Inv(n)
  {
    if o in n.ops { SetOpKeepsInv(s, o, n.ops[o], n); } else { DropOpKeepsInv(s, o, n); }
  }

  lemma AcquireKeepsInv(s: State, o: Ulid, n: State)
    requires Inv(s) && Next(s, Acquire(o), n)
    ensures Inv(n)
  {
    SetOpKeepsInv(s, o, n.ops[o], n);
  }

  lemma SubscribeEndKeepsInv(s: State, o: Ulid, n: State)
    requires Inv(s) && Next(s, SubscribeEnd(o), n)
    ensures Inv(n)
  {
    var m := s.(ops := s.ops - {o});
    DropOpKeepsInv(s, o, m);
    if n.conns == s.conns {
      DropOpKeepsInv(s, o, n);
    } else {
      AddKeepsInv(m, s.ops[o].c, s.ops[o].t, s.ops[o].workspace, n);
    }
  }

  lemma AddKeepsInv(s: State, c: Ulid, t: Topic, workspace: Ulid, n: State)
    requires Inv(s) && c in s.conns && HasWorkspace(s, t) && workspace == WorkspaceOf(s, t)
    requires n == s.(conns := s.conns[c := Add(s.conns[c], t, workspace)])
    ensures Inv(n)
  {
  }

  lemma RevalidateKeepsInv(s: State, step: Step, n: State)
    requires Inv(s) && Next(s, step, n)
    requires step.RevalidateBegin? || step.AllowRooms? || step.AllowWorkspaces? || step.RevalidateEnd? || step.RevalidateFail?
    ensures Inv(n)
  {
    match step
    case RevalidateBegin(o, user, scope) => RevalidateBeginKeepsInv(s, o, user, scope, n);
    case AllowRooms(o) => AllowKeepsInv(s, step, n);
    case AllowWorkspaces(o) => AllowKeepsInv(s, step, n);
    case RevalidateFail(o) => DropOpKeepsInv(s, o, n);
    case RevalidateEnd(o) => RevalidateEndKeepsInv(s, o, n);
  }

  lemma RevalidateBeginKeepsInv(s: State, o: Ulid, user: Ulid, scope: Option<Ulid>, n: State)
    requires Inv(s) && Next(s, RevalidateBegin(o, user, scope), n)
    ensures Inv(n)
  {
    if HasConn(s, user) {
      var m := s.(epochs := EpochMoved(s.epochs, user));
      EpochMovesOn(s, user);
      if o in n.ops { SetOpKeepsInv(m, o, n.ops[o], n); }
    }
  }

  lemma EpochMovesOn(s: State, user: Ulid)
    requires Inv(s)
    ensures Inv(s.(epochs := EpochMoved(s.epochs, user)))
  {
  }

  lemma AllowKeepsInv(s: State, step: Step, n: State)
    requires Inv(s) && Next(s, step, n) && (step.AllowRooms? || step.AllowWorkspaces?)
    ensures Inv(n)
  {
    SetOpKeepsInv(s, step.o, n.ops[step.o], n);
  }

  lemma RevalidateEndKeepsInv(s: State, o: Ulid, n: State)
    requires Inv(s) && Next(s, RevalidateEnd(o), n)
    ensures Inv(n)
  {
    var m := s.(ops := s.ops - {o});
    DropOpKeepsInv(s, o, m);
    GaveKeepsInv(m, n);
  }

  lemma UnregisterKeepsInv(s: State, c: Ulid, n: State)
    requires Inv(s) && Next(s, Unregister(c), n)
    ensures Inv(n)
  {
    var m := s.(conns := n.conns, owed := n.owed);
    GaveKeepsInv(s, m);
    EpochGoes(m, s.conns[c].user, n);
  }

  /** The epoch of a user without connections is forgotten, or none is. */
  lemma EpochGoes(s: State, user: Ulid, n: State)
    requires Inv(s) && n == s.(epochs := n.epochs)
    requires n.epochs == if HasConn(s, user) then s.epochs else s.epochs - {user}
    ensures Inv(n)
  {
  }

  /** Subscriptions go without a revalidation. */
  lemma LosingKeepsInv(s: State, step: Step, n: State)
    requires Inv(s) && Next(s, step, n) && (step.Unsubscribe? || step.CloseRooms?)
    ensures Inv(n)
  {
    GaveKeepsInv(s, n);
  }

  /** What no operation takes part in: releases, permissions, new rooms and the shutdown flag. */
  lemma OutsideKeepsInv(s: State, step: Step, n: State)
    requires Inv(s) && Next(s, step, n)
    requires step.Release? || step.Grant? || step.Revoke? || step.CreateRoom? || step.Shutdown?
    ensures Inv(n)
  {
    if step.CreateRoom? { RoomsOnlyGrow(s, step.room, step.workspace, n); } else { SameKeepsInv(s, n); }
  }

  lemma SameKeepsInv(s: State, n: State)
    requires Inv(s) && SameWorld(s, n) && n.ops == s.ops
    ensures Inv(n)
  {
  }

  lemma RoomsOnlyGrow(s: State, room: Ulid, workspace: Ulid, n: State)
    requires Inv(s) && room !in s.home && n == s.(home := s.home[room := workspace])
    ensures Inv(n)
  {
  }

  lemma StepKeepsInv(s: State, step: Step, n: State)
    requires Inv(s) && Next(s, step, n)
    ensures Inv(n)
  {
    if step.RegisterBegin? || step.RegisterEnd? {
      RegisterKeepsInv(s, step, n);
    } else if step.SubscribeBegin? || step.Authorize? || step.Acquire? || step.AcquireFail? || step.SubscribeEnd? {
      SubscribeKeepsInv(s, step, n);
    } else if step.RevalidateBegin? || step.AllowRooms? || step.AllowWorkspaces? || step.RevalidateEnd? || step.RevalidateFail? {
      RevalidateKeepsInv(s, step, n);
    } else if step.Unregister? {
      UnregisterKeepsInv(s, step.c, n);
    } else if step.Unsubscribe? || step.CloseRooms? {
      LosingKeepsInv(s, step, n);
    } else {
      OutsideKeepsInv(s, step, n);
    }
  }

  lemma {:induction false} RunKeepsInv(states: seq<State>, steps: seq<Step>, i: nat)
    requires IsRun(states, steps) && i <= |steps|
    ensures Inv(states[i])
  {
    if i > 0 {
      RunKeepsInv(states, steps, i - 1);
      assert StepAt(Next, states, steps, i - 1);
      StepKeepsInv(states[i - 1], steps[i - 1], states[i]);
    }
  }

  // ---- after the epoch moved ----

  predicate Passed(op: Op, user: Ulid, t: Topic) {
    (op.Authorized? || op.Acquiring?) && op.user == user && op.t == t
  }

  /** Whoever was authorized for the topic will find that the epoch has moved on. */
  ghost predicate Fenced(s: State, user: Ulid, t: Topic) {
    forall o :: o in s.ops && Passed(s.ops[o], user, t) && s.ops[o].c in s.conns ==> s.ops[o].epoch < Epoch(s, user)
  }

  ghost predicate NoHolder(s: State, user: Ulid, t: Topic) {
    forall c :: c in s.conns && s.conns[c].user == user ==> !Subscribed(s.conns[c], t)
  }

  /** A revalidation in flight collected the topic if anyone holds it, and has not read that it is allowed. */
  ghost predicate Caught(s: State, o: Ulid, user: Ulid, t: Topic) {
    && o in s.ops && IsRevalidating(s.ops[o]) && s.ops[o].user == user
    && (NoHolder(s, user, t) || Among(t, s.ops[o].rooms, s.ops[o].workspaces))
    && (t.RoomTopic? && !s.ops[o].Collected? ==> t.room !in s.ops[o].allowedRooms)
    && (t.WorkspaceTopic? && s.ops[o].ReadBoth? ==> t.workspace !in s.ops[o].allowedWorkspaces)
  }

  lemma BeginCatches(s: State, o: Ulid, user: Ulid, scope: Option<Ulid>, t: Topic, n: State)
    requires Inv(s) && Next(s, RevalidateBegin(o, user, scope), n) && TopicInScope(s.home, t, scope)
    ensures Fenced(n, user, t)
    ensures if o in n.ops then Caught(n, o, user, t) else NoHolder(n, user, t)
  {
    if HasConn(s, user) {
      var moved := s.(epochs := EpochMoved(s.epochs, user));
      var rooms, workspaces :| Collects(s, user, scope, rooms, workspaces)
             && n == if rooms == {} && workspaces == {} then moved
                     else moved.(ops := s.ops[o := Collected(user, rooms, workspaces)]);
      HoldersAreCollected(s, user, scope, t, rooms, workspaces);
    }
  }

  /** Whoever holds a topic in scope has it collected: rooms are recorded with their workspace. */
  lemma HoldersAreCollected(s: State, user: Ulid, scope: Option<Ulid>, t: Topic, rooms: set<Ulid>, workspaces: set<Ulid>)
    requires HomesRecorded(s) && TopicInScope(s.home, t, scope) && Collects(s, user, scope, rooms, workspaces)
    ensures NoHolder(s, user, t) || Among(t, rooms, workspaces)
  {
    forall c | c in s.conns && s.conns[c].user == user && Subscribed(s.conns[c], t) ensures Among(t, rooms, workspaces) {
      assert Scoped(s.conns[c], t, scope);
    }
  }

  /** Connections only gain by registering or by the last region of Subscribe. */
  lemma OnlyEntryGains(s: State, step: Step, n: State)
    requires Next(s, step, n) && !step.RegisterEnd? && !step.SubscribeEnd?
    ensures forall c :: c in n.conns ==> c in s.conns && n.conns[c].user == s.conns[c].user
    ensures forall c, t :: c in n.conns && Subscribed(n.conns[c], t) ==> Subscribed(s.conns[c], t)
  {
  }

  /** An operation past its authorization was so before with the same epoch, or was authorized by this very step. */
  lemma PassedBefore(s: State, step: Step, n: State, o: Ulid, user: Ulid, t: Topic)
    requires Next(s, step, n) && o in n.ops && Passed(n.ops[o], user, t) && step != Authorize(o)
    ensures o in s.ops && Passed(s.ops[o], user, t) && s.ops[o].c == n.ops[o].c && s.ops[o].epoch == n.ops[o].epoch
  {
    if step != Acquire(o) { OpStays(s, step, n, o); }
  }

  /** No other step moves an operation to where it has passed its authorization. */
  lemma OpStays(s: State, step: Step, n: State, o: Ulid)
    requires Next(s, step, n) && o in n.ops && (n.ops[o].Authorized? || n.ops[o].Acquiring?) && step != Authorize(o) && step != Acquire(o)
    ensures o in s.ops && n.ops[o] == s.ops[o]
  {
  }

  /** A connection that an operation past its authorization works on was registered before. */
  lemma RegisteredBefore(s: State, step: Step, n: State, o: Ulid, user: Ulid, t: Topic)
    requires Inv(s) && Next(s, step, n) && o in s.ops && Passed(s.ops[o], user, t) && s.ops[o].c in n.conns
    ensures s.ops[o].c in s.conns
  {
    if !step.RegisterEnd? && !step.SubscribeEnd? { OnlyEntryGains(s, step, n); }
  }

  /** An epoch is only forgotten with the user's last connection. */
  lemma EpochGrows(s: State, step: Step, n: State, user: Ulid)
    requires Next(s, step, n) && HasConn(n, user)
    ensures Epoch(s, user) <= Epoch(n, user)
  {
  }

  lemma StepKeepsFence(s: State, step: Step, n: State, user: Ulid, t: Topic)
    requires Inv(s) && Inv(n) && Next(s, step, n) && Fenced(s, user, t) && (user, t) !in s.perms
    ensures Fenced(n, user, t)
  {
    forall o | o in n.ops && Passed(n.ops[o], user, t) && n.ops[o].c in n.conns ensures n.ops[o].epoch < Epoch(n, user) {
      if step == Authorize(o) {
        assert false;
      } else {
        PassedBefore(s, step, n, o, user, t);
        RegisteredBefore(s, step, n, o, user, t);
        EpochGrows(s, step, n, user);
      }
    }
  }

  lemma StepKeepsNoHolder(s: State, step: Step, n: State, user: Ulid, t: Topic)
    requires Inv(s) && Next(s, step, n) && Fenced(s, user, t) && NoHolder(s, user, t)
    ensures NoHolder(n, user, t)
  {
    if step.SubscribeEnd? {
      var op := s.ops[step.o];
      if op.c in s.conns {
        AddHolds(s.conns[op.c], op.t, op.workspace, ChannelOf(t));
      }
    } else if !step.RegisterEnd? {
      OnlyEntryGains(s, step, n);
    }
  }

  /** A revalidation in flight only moves on by reading what is allowed. */
  lemma RevalidationMovesOn(s: State, step: Step, n: State, o: Ulid)
    requires Next(s, step, n) && o in s.ops && o in n.ops && IsRevalidating(s.ops[o])
    ensures n.ops[o] == s.ops[o] || step == AllowRooms(o) || step == AllowWorkspaces(o)
  {
  }

  lemma StepKeepsCaught(s: State, step: Step, n: State, o: Ulid, user: Ulid, t: Topic)
    requires Inv(s) && Next(s, step, n) && Fenced(s, user, t) && Caught(s, o, user, t) && (user, t) !in s.perms
    requires o in n.ops
    ensures Caught(n, o, user, t)
  {
    if NoHolder(s, user, t) { StepKeepsNoHolder(s, step, n, user, t); }
    RevalidationMovesOn(s, step, n, o);
  }

  lemma EndClears(s: State, o: Ulid, n: State, user: Ulid, t: Topic)
    requires Inv(s) && Next(s, RevalidateEnd(o), n) && Caught(s, o, user, t)
    ensures NoHolder(n, user, t)
  {
  }

  // ---- the theorem ----

  /** The revalidation begun by step `i` under the name `o` finished with its answer by state `m`: it had nothing to look at,
      or it ran on until its last region. */
  ghost predicate Finished(states: seq<State>, steps: seq<Step>, o: Ulid, i: nat, m: nat)
    requires IsRun(states, steps) && i < m <= |steps|
  {
    if m == i + 1 then o !in states[m].ops
    else steps[m - 1] == RevalidateEnd(o) && forall k :: i < k < m ==> o in states[k].ops
  }

  ghost predicate NotAllowed(states: seq<State>, user: Ulid, t: Topic, i: nat, j: nat)
    requires i <= j < |states|
  {
    forall k :: i <= k <= j ==> (user, t) !in states[k].perms
  }

  lemma StepKeepsBoth(s: State, step: Step, n: State, o: Ulid, user: Ulid, t: Topic)
    requires Inv(s) && Inv(n) && Next(s, step, n) && Fenced(s, user, t) && Caught(s, o, user, t) && (user, t) !in s.perms
    ensures Fenced(n, user, t) && (o in n.ops ==> Caught(n, o, user, t))
    ensures step == RevalidateEnd(o) ==> NoHolder(n, user, t)
  {
    StepKeepsFence(s, step, n, user, t);
    if o in n.ops { StepKeepsCaught(s, step, n, o, user, t); }
    if step == RevalidateEnd(o) { EndClears(s, o, n, user, t); }
  }

  lemma BeginAt(states: seq<State>, steps: seq<Step>, i: nat, o: Ulid, user: Ulid, scope: Option<Ulid>, t: Topic)
    requires IsRun(states, steps) && i < |steps|
    requires steps[i] == RevalidateBegin(o, user, scope) && TopicInScope(states[i].home, t, scope)
    ensures Fenced(states[i + 1], user, t)
    ensures if o in states[i + 1].ops then Caught(states[i + 1], o, user, t) else NoHolder(states[i + 1], user, t)
  {
    RunKeepsInv(states, steps, i);
    assert StepAt(Next, states, steps, i);
    BeginCatches(states[i], o, user, scope, t, states[i + 1]);
  }

  lemma CaughtAt(states: seq<State>, steps: seq<Step>, k: nat, o: Ulid, user: Ulid, t: Topic)
    requires IsRun(states, steps) && k < |steps|
    requires Fenced(states[k], user, t) && Caught(states[k], o, user, t) && (user, t) !in states[k].perms
    ensures Fenced(states[k + 1], user, t) && (o in states[k + 1].ops ==> Caught(states[k + 1], o, user, t))
    ensures steps[k] == RevalidateEnd(o) ==> NoHolder(states[k + 1], user, t)
  {
    RunKeepsInv(states, steps, k);
    RunKeepsInv(states, steps, k + 1);
    assert StepAt(Next, states, steps, k);
    StepKeepsBoth(states[k], steps[k], states[k + 1], o, user, t);
  }

  lemma OutAt(states: seq<State>, steps: seq<Step>, k: nat, user: Ulid, t: Topic)
    requires IsRun(states, steps) && k < |steps|
    requires Fenced(states[k], user, t) && NoHolder(states[k], user, t) && (user, t) !in states[k].perms
    ensures Fenced(states[k + 1], user, t) && NoHolder(states[k + 1], user, t)
  {
    RunKeepsInv(states, steps, k);
    RunKeepsInv(states, steps, k + 1);
    assert StepAt(Next, states, steps, k);
    StepKeepsFence(states[k], steps[k], states[k + 1], user, t);
    StepKeepsNoHolder(states[k], steps[k], states[k + 1], user, t);
  }

  lemma {:induction false} StaysCaught(states: seq<State>, steps: seq<Step>, o: Ulid, user: Ulid, scope: Option<Ulid>, t: Topic, i: nat, k: nat)
    requires IsRun(states, steps) && i < k <= |steps|
    requires steps[i] == RevalidateBegin(o, user, scope) && TopicInScope(states[i].home, t, scope)
    requires NotAllowed(states, user, t, i, k)
    requires forall x :: i < x <= k ==> o in states[x].ops
    ensures Fenced(states[k], user, t) && Caught(states[k], o, user, t)
  {
    if k == i + 1 {
      BeginAt(states, steps, i, o, user, scope, t);
    } else {
      StaysCaught(states, steps, o, user, scope, t, i, k - 1);
      CaughtAt(states, steps, k - 1, o, user, t);
    }
  }

  /** Once a revalidation that began after a user lost a topic has finished, no connection of the user holds the topic, and
      none gains it for as long as it is not granted again: whatever subscribes, registers, unregisters and other
      revalidations do meanwhile. */
  lemma {:induction false} RevokedStaysOut(states: seq<State>, steps: seq<Step>, o: Ulid, user: Ulid, scope: Option<Ulid>, t: Topic,
                                           i: nat, m: nat, j: nat)
    requires IsRun(states, steps) && i < m <= j <= |steps|
    requires steps[i] == RevalidateBegin(o, user, scope) && TopicInScope(states[i].home, t, scope)
    requires Finished(states, steps, o, i, m)
    requires NotAllowed(states, user, t, i, j)
    ensures forall c :: c in states[j].conns && states[j].conns[c].user == user ==> !Subscribed(states[j].conns[c], t)
    ensures Fenced(states[j], user, t)
    decreases j
  {
    if m < j {
      RevokedStaysOut(states, steps, o, user, scope, t, i, m, j - 1);
      OutAt(states, steps, j - 1, user, t);
    } else if m == i + 1 {
      BeginAt(states, steps, i, o, user, scope, t);
    } else {
      StaysCaught(states, steps, o, user, scope, t, i, m - 1);
      CaughtAt(states, steps, m - 1, o, user, t);
    }
  }
}
