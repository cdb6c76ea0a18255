/** Does an active huddle have somebody in it? Exactly when, and runs after which nobody is left. */
module HuddleOccupied {
  import opened Common
  import M = HuddleModel
  import opened HuddleProtocol
  import HuddleRuns
  import opened Runs

  /** A check whether the huddle is over is owed or under way. */
  ghost predicate Watched(s: State, huddle: Ulid) {
    huddle in s.looks || exists t :: t in s.txs && IsEnding(s.txs[t], huddle)
  }

  predicate IsEnding(tx: Tx, huddle: Ulid) {
    tx.Ending? && tx.ending == huddle
  }

  ghost predicate OccupiedOrWatched(s: State, huddle: Ulid) {
    IsActive(s, huddle) ==> M.Occupants(s.redis, huddle) != {} || Watched(s, huddle)
  }

  ghost predicate NoneForgotten(s: State) {
    forall h {:trigger OccupiedOrWatched(s, h)} :: OccupiedOrWatched(s, h)
  }

  // ---- which steps can leave a huddle empty and unwatched ----

  predicate Lands(step: Step) {
    step.CommitJoin? || (step.FailJoin? && step.landed)
  }

  /** An undo on an active huddle leaves somebody else there or a check to come, and so does the commit that makes a huddle
      active: whoever was taken out before it is only checked for if that check has not found the row missing. The other cases
      are failures: a check given up, and people taken out by a script whose result is lost. */
  ghost predicate LeavesSomeIn(s: State, step: Step, huddle: Ulid)
    requires Legal(s, step)
  {
    match step
    case Undo(key) =>
      key.0 == huddle && IsActive(s, huddle) ==>
        M.Occupants(s.redis, huddle) - M.Holders(s.redis, huddle, key.1) != {} || Watched(s, huddle)
    case CommitJoin(t) => StartSeesSome(s, s.txs[t], huddle)
    case FailJoin(t, landed) => landed ==> StartSeesSome(s, s.txs[t], huddle)
    case LoseLook(h) =>
      h == huddle && IsActive(s, huddle) ==>
        M.Occupants(s.redis, huddle) != {} || Watched(s.(looks := s.looks - multiset{h}), huddle)
    case Rollback(t) => IsEnding(s.txs[t], huddle) ==> M.Occupants(s.redis, huddle) != {} || huddle in s.looks
    case LoseJoin(t, deadline, limit, status) =>
      var p := s.txs[t].p;
      MovesFrom(s, p, huddle) && !M.Join(s.redis, p, deadline, limit, status).1.Full? ==>
        M.Occupants(s.redis, huddle) - {p.user} != {} || Watched(s, huddle)
    case LoseScript(op) =>
      var after := M.Apply(s.redis, op);
      huddle in Bereft(s.redis, after) && IsActive(s, huddle) ==> M.Occupants(after, huddle) != {} || Watched(s, huddle)
    case _ => true
  }

  ghost predicate StartSeesSome(s: State, tx: Tx, huddle: Ulid)
    requires tx.Joining?
  {
    tx.created && tx.p.huddle == huddle ==> M.Occupants(s.redis, huddle) != {} || huddle in s.looks
  }

  ghost predicate LeavesSome(s: State, step: Step)
    requires Legal(s, step)
  {
    forall h {:trigger LeavesSomeIn(s, step, h)} :: LeavesSomeIn(s, step, h)
  }

  /** Redis stays, checks stay owed, and transactions that end are no checks. */
  lemma TxGoes(s: State, t: Ulid, n: State, huddle: Ulid)
    requires OccupiedOrWatched(s, huddle) && t in s.txs && !IsEnding(s.txs[t], huddle)
    requires n.redis == s.redis && n.txs == s.txs - {t} && s.looks <= n.looks
    requires IsActive(n, huddle) ==> IsActive(s, huddle)
    ensures OccupiedOrWatched(n, huddle)
  {
    if IsActive(n, huddle) && huddle !in s.looks && M.Occupants(s.redis, huddle) == {} {
      var x :| x in s.txs && IsEnding(s.txs[x], huddle);
      assert n.txs[x] == s.txs[x];
    }
  }

  lemma TxSet(s: State, t: Ulid, n: State, huddle: Ulid)
    requires OccupiedOrWatched(s, huddle) && t in n.txs && n.txs == s.txs[t := n.txs[t]]
    requires t in s.txs && IsEnding(s.txs[t], huddle) ==> IsEnding(n.txs[t], huddle)
    requires n.rows == s.rows && (huddle in s.looks ==> huddle in n.looks || IsEnding(n.txs[t], huddle))
    requires M.Occupants(s.redis, huddle) != {} ==> M.Occupants(n.redis, huddle) != {} || huddle in n.looks
    ensures OccupiedOrWatched(n, huddle)
  {
    if IsActive(n, huddle) && M.Occupants(n.redis, huddle) == {} && huddle !in n.looks && huddle !in s.looks {
      var x :| x in s.txs && IsEnding(s.txs[x], huddle);
      assert x != t ==> n.txs[x] == s.txs[x];
    }
  }

  /** People leave a huddle that is watched afterwards, or not all of them do. */
  lemma RedisShrinks(s: State, n: State, huddle: Ulid)
    requires OccupiedOrWatched(s, huddle) && n.txs == s.txs && n.rows == s.rows && s.looks <= n.looks
    requires IsActive(s, huddle) && M.Occupants(s.redis, huddle) != {} ==> M.Occupants(n.redis, huddle) != {} || Watched(n, huddle)
    ensures OccupiedOrWatched(n, huddle)
  {
    if IsActive(n, huddle) && M.Occupants(s.redis, huddle) == {} && huddle !in s.looks {
      var x :| x in s.txs && IsEnding(s.txs[x], huddle);
      assert IsEnding(n.txs[x], huddle);
    }
  }

  lemma WriteForgetsNone(s: State, t: Ulid, deadline: int, limit: int, status: M.Status, huddle: Ulid)
    requires Legal(s, WriteJoin(t, deadline, limit, status)) && OccupiedOrWatched(s, huddle)
    ensures OccupiedOrWatched(Next(s, WriteJoin(t, deadline, limit, status)), huddle)
  {
    var n, p := Next(s, WriteJoin(t, deadline, limit, status)), s.txs[t].p;
    if M.Join(s.redis, p, deadline, limit, status).1.Full? {
      TxGoes(s, t, n, huddle);
    } else {
      HuddleRuns.JoinSeats(s.redis, p, deadline, limit, status);
      forall u | u in M.Occupants(s.redis, huddle) && huddle !in LeftBy(s.redis, p) ensures u in M.Occupants(n.redis, huddle) {}
      TxSet(s, t, n, huddle);
    }
  }

  lemma UndoForgets(s: State, key: (Ulid, Ulid), huddle: Ulid)
    requires Inv(s) && Legal(s, Undo(key)) && OccupiedOrWatched(s, huddle)
    ensures OccupiedOrWatched(Next(s, Undo(key)), huddle) <==> LeavesSomeIn(s, Undo(key), huddle)
  {
    var n := Next(s, Undo(key));
    RemoveLeaves(s.redis, key, huddle);
    assert Watched(n, huddle) <==> Watched(s, huddle);
  }

  lemma RemoveLeaves(s: M.State, key: (Ulid, Ulid), huddle: Ulid)
    requires M.Valid(s)
    ensures M.Occupants(M.Remove(s, key.0, key.1), huddle)
            == M.Occupants(s, huddle) - if huddle == key.0 then M.Holders(s, key.0, key.1) else {}
  {
    if M.Holders(s, key.0, key.1) != {} {
      var u :| u in M.Holders(s, key.0, key.1) && M.Remove(s, key.0, key.1) == M.Vacate(s, u);
      HuddleRuns.TheHolder(s, key.0, key.1, u);
    }
  }

  lemma ScriptForgetsNone(s: State, op: M.Op, huddle: Ulid)
    requires Inv(s) && Legal(s, Script(op)) && OccupiedOrWatched(s, huddle)
    ensures OccupiedOrWatched(Next(s, Script(op)), huddle)
  {
    var n := Next(s, Script(op));
    ScriptsOnlyRemove(s.redis, op);
    if u :| u in M.Occupants(s.redis, huddle) {
      if u in n.redis.seats {
        assert u in M.Occupants(n.redis, huddle);
      } else {
        assert huddle in Bereft(s.redis, n.redis);
      }
    }
    RedisShrinks(s, n, huddle);
  }

  lemma ClearForgetsNone(s: State, h: Ulid, order: seq<Ulid>, huddle: Ulid)
    requires Inv(s) && Legal(s, DoClear(h, order)) && OccupiedOrWatched(s, huddle)
    ensures OccupiedOrWatched(Next(s, DoClear(h, order)), huddle)
  {
    var n := Next(s, DoClear(h, order));
    HuddleRuns.ClearKeepsValid(s.redis, h, order);
    assert Over(s, h);
    forall u | u in M.Occupants(s.redis, huddle) && huddle != h ensures u in M.Occupants(n.redis, huddle) {}
    RedisShrinks(s, n, huddle);
  }

  lemma LandForgets(s: State, step: Step, huddle: Ulid)
    requires Inv(s) && Legal(s, step) && Lands(step) && OccupiedOrWatched(s, huddle)
    ensures OccupiedOrWatched(Next(s, step), huddle) <==> LeavesSomeIn(s, step, huddle)
  {
    var n := Next(s, step);
    if huddle == s.txs[step.t].p.huddle {
      forall x | x in n.txs ensures !IsEnding(n.txs[x], huddle) {
        assert s.txs[x] == n.txs[x] && HuddleOf(s.txs[step.t]) == huddle;
      }
      forall x | x in s.txs ensures !IsEnding(s.txs[x], huddle) {
        if x != step.t { assert x in n.txs && n.txs[x] == s.txs[x]; }
      }
    } else {
      TxGoes(s, step.t, n, huddle);
    }
  }

  lemma LoseLookForgets(s: State, h: Ulid, huddle: Ulid)
    requires Legal(s, LoseLook(h)) && OccupiedOrWatched(s, huddle)
    ensures OccupiedOrWatched(Next(s, LoseLook(h)), huddle) <==> LeavesSomeIn(s, LoseLook(h), huddle)
  {
    assert Watched(s, huddle) && huddle != h ==> Watched(Next(s, LoseLook(h)), huddle);
  }

  lemma RollbackForgets(s: State, t: Ulid, huddle: Ulid)
    requires Inv(s) && Legal(s, Rollback(t)) && OccupiedOrWatched(s, huddle)
    ensures OccupiedOrWatched(Next(s, Rollback(t)), huddle) <==> LeavesSomeIn(s, Rollback(t), huddle)
  {
    var n := Next(s, Rollback(t));
    if IsEnding(s.txs[t], huddle) {
      forall x | x in n.txs ensures !IsEnding(n.txs[x], huddle) {
        assert s.txs[x] == n.txs[x] && HuddleOf(s.txs[t]) == huddle;
      }
    } else {
      TxGoes(s, t, n, huddle);
    }
  }

  /** The transaction of the lost join was no check, so what was watched still is. */
  lemma StillWatched(s: State, t: Ulid, n: State, huddle: Ulid)
    requires t in s.txs && !s.txs[t].Ending? && n.txs == s.txs - {t} && n.looks == s.looks
    ensures Watched(n, huddle) <==> Watched(s, huddle)
  {
    if x :| x in s.txs && IsEnding(s.txs[x], huddle) { assert x in n.txs && IsEnding(n.txs[x], huddle); }
    if x :| x in n.txs && IsEnding(n.txs[x], huddle) { assert x in s.txs && IsEnding(s.txs[x], huddle); }
  }

  /** Seated elsewhere, a user is in the new huddle and in no other. */
  lemma SeatedOccupants(before: M.State, after: M.State, p: M.Participant, huddle: Ulid)
    requires p.user in after.seats && after.seats[p.user].who == p
    requires after.seats == before.seats[p.user := after.seats[p.user]]
    ensures M.Occupants(after, huddle) == M.Occupants(before, huddle) - {p.user} + if huddle == p.huddle then {p.user} else {}
    ensures huddle !in LeftBy(before, p) ==> p.user !in M.Occupants(before, huddle)
  {
  }

  lemma JoinedOccupants(s: M.State, p: M.Participant, deadline: int, limit: int, status: M.Status, huddle: Ulid)
    requires !M.Join(s, p, deadline, limit, status).1.Full?
    ensures M.Occupants(M.Join(s, p, deadline, limit, status).0, huddle)
            == M.Occupants(s, huddle) - {p.user} + if huddle == p.huddle then {p.user} else {}
    ensures huddle !in LeftBy(s, p) ==> p.user !in M.Occupants(s, huddle)
  {
    HuddleRuns.JoinSeats(s, p, deadline, limit, status);
    SeatedOccupants(s, M.Join(s, p, deadline, limit, status).0, p, huddle);
  }

  /** A user who was moved away unnoticed leaves somebody, or the huddle was not the one left. */
  predicate MovesFrom(s: State, p: M.Participant, huddle: Ulid) {
    huddle in LeftBy(s.redis, p) - {p.huddle} && IsActive(s, huddle)
  }

  lemma MovedAway(s: State, n: State, p: M.Participant, huddle: Ulid)
    requires OccupiedOrWatched(s, huddle) && n.rows == s.rows && (Watched(n, huddle) <==> Watched(s, huddle))
    requires M.Occupants(n.redis, huddle) == M.Occupants(s.redis, huddle) - {p.user} + if huddle == p.huddle then {p.user} else {}
    requires huddle !in LeftBy(s.redis, p) ==> p.user !in M.Occupants(s.redis, huddle)
    ensures OccupiedOrWatched(n, huddle)
            <==> (MovesFrom(s, p, huddle) ==> M.Occupants(s.redis, huddle) - {p.user} != {} || Watched(s, huddle))
  {
    if huddle == p.huddle { assert p.user in M.Occupants(n.redis, huddle); }
    if huddle !in LeftBy(s.redis, p) && huddle != p.huddle { assert M.Occupants(n.redis, huddle) == M.Occupants(s.redis, huddle); }
  }

  lemma LoseJoinForgets(s: State, t: Ulid, deadline: int, limit: int, status: M.Status, huddle: Ulid)
    requires Legal(s, LoseJoin(t, deadline, limit, status)) && OccupiedOrWatched(s, huddle)
    ensures OccupiedOrWatched(Next(s, LoseJoin(t, deadline, limit, status)), huddle)
            <==> LeavesSomeIn(s, LoseJoin(t, deadline, limit, status), huddle)
  {
    var n, p := Next(s, LoseJoin(t, deadline, limit, status)), s.txs[t].p;
    StillWatched(s, t, n, huddle);
    if !M.Join(s.redis, p, deadline, limit, status).1.Full? {
      JoinedOccupants(s.redis, p, deadline, limit, status, huddle);
      MovedAway(s, n, p, huddle);
    }
  }

  lemma LoseScriptForgets(s: State, op: M.Op, huddle: Ulid)
    requires Inv(s) && Legal(s, LoseScript(op)) && OccupiedOrWatched(s, huddle)
    ensures OccupiedOrWatched(Next(s, LoseScript(op)), huddle) <==> LeavesSomeIn(s, LoseScript(op), huddle)
  {
    var n := Next(s, LoseScript(op));
    ScriptsOnlyRemove(s.redis, op);
    assert Watched(n, huddle) <==> Watched(s, huddle);
    if huddle !in Bereft(s.redis, n.redis) {
      forall u | u in M.Occupants(s.redis, huddle) ensures u in M.Occupants(n.redis, huddle) {}
    }
  }

  lemma OtherForgetsNone(s: State, step: Step, huddle: Ulid)
    requires Legal(s, step) && OccupiedOrWatched(s, huddle)
    requires !Lands(step) && !step.Undo? && !step.WriteJoin? && !step.Script? && !step.DoClear?
    requires !step.LoseLook? && !step.Rollback? && !step.LoseJoin? && !step.LoseScript?
    ensures OccupiedOrWatched(Next(s, step), huddle)
  {
    var n := Next(s, step);
    match step
    case SkipLook(h) => assert Watched(s, huddle) && huddle != h ==> Watched(n, huddle);
    case Look(t) =>
      if t in n.txs { TxSet(s, t, n, huddle); }
      else if huddle != s.txs[t].ending { TxGoes(s, t, n, huddle); }
    case CommitEnd(t) => if huddle != s.txs[t].ending { TxGoes(s, t, n, huddle); }
    case CommitClose(t, _) => TxGoes(s, t, n, huddle);
    case FailJoin(t, _) => TxGoes(s, t, n, huddle);
    case BeginJoin(t, _) => TxSet(s, t, n, huddle);
    case StartJoin(t, _) => TxSet(s, t, n, huddle);
    case BeginEnd(t, _) => TxSet(s, t, n, huddle);
    case BeginClose(t, _) => TxSet(s, t, n, huddle);
  }

  /** A failed or given-up step. */
  predicate Fails(step: Step) {
    step.LoseLook? || step.Rollback? || step.LoseJoin? || step.LoseScript?
  }

  lemma FailureForgets(s: State, step: Step, huddle: Ulid)
    requires Inv(s) && Legal(s, step) && OccupiedOrWatched(s, huddle) && Fails(step)
    ensures OccupiedOrWatched(Next(s, step), huddle) <==> LeavesSomeIn(s, step, huddle)
  {
    match step
    case LoseLook(h) => LoseLookForgets(s, h, huddle);
    case Rollback(t) => RollbackForgets(s, t, huddle);
    case LoseJoin(t, deadline, limit, status) => LoseJoinForgets(s, t, deadline, limit, status, huddle);
    case LoseScript(op) => LoseScriptForgets(s, op, huddle);
  }

  lemma StepForgets(s: State, step: Step, huddle: Ulid)
    requires Inv(s) && Legal(s, step) && OccupiedOrWatched(s, huddle)
    ensures OccupiedOrWatched(Next(s, step), huddle) <==> LeavesSomeIn(s, step, huddle)
  {
    if step.Undo? {
      UndoForgets(s, step.key, huddle);
    } else if Lands(step) {
      LandForgets(s, step, huddle);
    } else if Fails(step) {
      FailureForgets(s, step, huddle);
    } else if step.WriteJoin? {
      WriteForgetsNone(s, step.t, step.deadline, step.limit, step.status, huddle);
    } else if step.Script? {
      ScriptForgetsNone(s, step.op, huddle);
    } else if step.DoClear? {
      ClearForgetsNone(s, step.huddle, step.order, huddle);
    } else {
      OtherForgetsNone(s, step, huddle);
    }
  }

  /** A step leaves no active huddle empty with nobody to check on it exactly if it leaves some. */
  lemma StepForgetsIff(s: State, step: Step)
    requires Inv(s) && NoneForgotten(s) && Legal(s, step)
    ensures NoneForgotten(Next(s, step)) <==> LeavesSome(s, step)
  {
    forall h ensures OccupiedOrWatched(Next(s, step), h) <==> LeavesSomeIn(s, step, h) {
      assert OccupiedOrWatched(s, h);
      StepForgets(s, step, h);
    }
  }

  // ---- the theorem ----

  ghost predicate LeavesSomeAt(states: seq<State>, steps: seq<Step>, k: nat)
    requires IsPath(IsStep, states, steps) && k < |steps|
  {
    IsStep(states[k], steps[k], states[k + 1]) && LeavesSome(states[k], steps[k])
  }

  ghost predicate AllLeaveSome(states: seq<State>, steps: seq<Step>, i: nat)
    requires IsPath(IsStep, states, steps) && i <= |steps|
  {
    forall k {:trigger LeavesSomeAt(states, steps, k)} :: 0 <= k < i ==> LeavesSomeAt(states, steps, k)
  }

  ghost predicate NoneEverForgotten(states: seq<State>, i: nat)
    requires i < |states|
  {
    forall k {:trigger NoneForgotten(states[k])} :: 0 <= k <= i ==> NoneForgotten(states[k])
  }

  /** In every run: all along it, each active huddle has somebody in it or a check owed or under way, exactly if every
      undo, every commit of a start and every failure left some. */
  lemma {:induction false} ForgottenIff(states: seq<State>, steps: seq<Step>, i: nat)
    requires IsRun(states, steps) && i <= |steps|
    ensures NoneEverForgotten(states, i) <==> AllLeaveSome(states, steps, i)
  {
    if i > 0 {
      ForgottenIff(states, steps, i - 1);
      LeaveSomeMore(states, steps, i - 1);
      ForgottenMore(states, i - 1);
      ForgottenAt(states, steps, i - 1);
    }
  }

  lemma ForgottenAt(states: seq<State>, steps: seq<Step>, i: nat)
    requires IsRun(states, steps) && i < |steps|
    ensures NoneForgotten(states[i]) ==> (NoneForgotten(states[i + 1]) <==> LeavesSomeAt(states, steps, i))
  {
    RunKeepsInv(states, steps, i);
    assert StepAt(IsStep, states, steps, i);
    if NoneForgotten(states[i]) { StepForgetsIff(states[i], steps[i]); }
  }

  lemma ForgottenMore(states: seq<State>, i: nat)
    requires i + 1 < |states|
    ensures NoneEverForgotten(states, i + 1) <==> NoneEverForgotten(states, i) && NoneForgotten(states[i + 1])
    ensures NoneEverForgotten(states, i) ==> NoneForgotten(states[i])
  {
  }

  lemma LeaveSomeMore(states: seq<State>, steps: seq<Step>, i: nat)
    requires IsPath(IsStep, states, steps) && i < |steps|
    ensures AllLeaveSome(states, steps, i + 1) <==> AllLeaveSome(states, steps, i) && LeavesSomeAt(states, steps, i)
  {
  }

  /** If every undo, every commit of a start and every failure left some, an active huddle with no check owed or under way has somebody in it. */
  lemma ActiveIsOccupied(states: seq<State>, steps: seq<Step>, huddle: Ulid)
    requires IsRun(states, steps) && AllLeaveSome(states, steps, |steps|)
    requires var s := states[|steps|];
             && huddle in s.rows && s.rows[huddle] == Active && huddle !in s.looks
             && forall t :: t in s.txs && s.txs[t].Ending? ==> s.txs[t].ending != huddle
    ensures exists u :: u in M.Occupants(states[|steps|].redis, huddle)
  {
    ForgottenIff(states, steps, |steps|);
    var s := states[|steps|];
    assert NoneForgotten(s) && OccupiedOrWatched(s, huddle);
    assert forall t :: t in s.txs ==> !IsEnding(s.txs[t], huddle);
  }

  // ---- runs after which nobody is left ----

  function SeatFor(p: M.Participant, deadline: int, status: M.Status): M.Seat {
    M.Seat(p, deadline, status.workspace, status.channels, status.left)
  }

  lemma Then(states: seq<State>, steps: seq<Step>, step: Step) returns (more: seq<State>, all: seq<Step>)
    requires IsRun(states, steps) && Legal(states[|steps|], step)
    ensures IsRun(more, all) && all == steps + [step] && more == states + [Next(states[|steps|], step)]
  {
    more, all := states + [Next(states[|steps|], step)], steps + [step];
    Longer(IsStep, states, steps, step, Next(states[|steps|], step));
  }

  /** A join that finds room writes its seat. */
  lemma Seats(s: State, t: Ulid, deadline: int, limit: int, status: M.Status)
    requires Legal(s, WriteJoin(t, deadline, limit, status))
    requires |M.Occupants(s.redis, s.txs[t].p.huddle) - {s.txs[t].p.user}| < limit
    ensures var n, p := Next(s, WriteJoin(t, deadline, limit, status)), s.txs[t].p;
            && n.redis.seats == s.redis.seats[p.user := SeatFor(p, deadline, status)]
            && n == s.(redis := n.redis, txs := s.txs[t := s.txs[t].(wrote := true)], looks := s.looks + multiset(LeftBy(s.redis, p)))
  {
    HuddleRuns.JoinSeats(s.redis, s.txs[t].p, deadline, limit, status);
  }

  /** Somebody starts a huddle, up to the commit. */
  lemma Starts(states: seq<State>, steps: seq<Step>, t: Ulid, p: M.Participant, deadline: int, status: M.Status)
    returns (more: seq<State>, all: seq<Step>)
    requires IsRun(states, steps) && t !in states[|steps|].txs && p.huddle !in states[|steps|].rows && Unlocked(states[|steps|], p.huddle)
    requires p.huddle !in set u | u in states[|steps|].redis.seats :: states[|steps|].redis.seats[u].who.huddle
    ensures IsRun(more, all) && all == steps + [StartJoin(t, p), WriteJoin(t, deadline, 1, status)]
    ensures var s, n := states[|steps|], more[|all|];
            && n.redis.seats == s.redis.seats[p.user := SeatFor(p, deadline, status)]
            && n == s.(redis := n.redis, txs := s.txs[t := Joining(p, true, true)], looks := s.looks + multiset(LeftBy(s.redis, p)))
  {
    var s := states[|steps|];
    more, all := Then(states, steps, StartJoin(t, p));
    assert M.Occupants(s.redis, p.huddle) == {};
    Seats(more[|all|], t, deadline, 1, status);
    more, all := Then(more, all, WriteJoin(t, deadline, 1, status));
  }

  /** A user starts a huddle and, before that commits, another one in a different room, which takes the user out of the first;
      its row is not there to be checked, and then its start commits: active, empty, and nothing owed. No join failed. */
  lemma EvictionLeavesItEmpty(t: Ulid, x: Ulid, p: M.Participant, q: M.Participant, deadline: int, status: M.Status)
    returns (states: seq<State>, steps: seq<Step>)
    requires t != x && p.huddle != q.huddle && p.user == q.user
    ensures IsRun(states, steps)
    ensures steps == [StartJoin(t, p), WriteJoin(t, deadline, 1, status), StartJoin(x, q), WriteJoin(x, deadline, 1, status),
                      CommitJoin(x), SkipLook(p.huddle), CommitJoin(t)]
    ensures Legal(states[6], CommitJoin(t)) && !LeavesSome(states[6], CommitJoin(t))
    ensures var s := states[|steps|];
            && IsActive(s, p.huddle) && M.Occupants(s.redis, p.huddle) == {}
            && s.txs == map[] && s.undos == {} && s.looks == multiset{} && s.clears == {} && s.closings == {}
  {
    states, steps := Starts([INITIAL], [], t, p, deadline, status);
    states, steps := Starts(states, steps, x, q, deadline, status);
    LandsEmpty(states[4], t, x, p, q);
    states, steps := Then(states, steps, CommitJoin(x));
    states, steps := Then(states, steps, SkipLook(p.huddle));
    states, steps := Then(states, steps, CommitJoin(t));
  }

  lemma LandsEmpty(s: State, t: Ulid, x: Ulid, p: M.Participant, q: M.Participant)
    requires t != x && p.huddle != q.huddle && s.redis.seats.Keys == {q.user} && s.redis.seats[q.user].who == q
    requires s == State(s.redis, map[], map[t := Joining(p, true, true), x := Joining(q, true, true)], {}, {}, {}, multiset{p.huddle}, {})
    ensures Legal(s, CommitJoin(x)) && Legal(Next(s, CommitJoin(x)), SkipLook(p.huddle))
    ensures var m := Next(Next(s, CommitJoin(x)), SkipLook(p.huddle));
            && Legal(m, CommitJoin(t)) && !LeavesSome(m, CommitJoin(t))
            && Next(m, CommitJoin(t)) == State(s.redis, map[p.huddle := Active, q.huddle := Active], map[], {}, {}, {}, multiset{}, {})
    ensures M.Occupants(s.redis, p.huddle) == {}
  {
    assert !LeavesSomeIn(Next(Next(s, CommitJoin(x)), SkipLook(p.huddle)), CommitJoin(t), p.huddle);
    assert s.txs - {x} == map[t := Joining(p, true, true)];
    assert s.txs - {x} - {t} == map[];
  }

  /** One person has started a huddle, a second one's join has written its seat. */
  lemma BothSeated(t: Ulid, p: M.Participant, q: M.Participant, deadline: int, status: M.Status)
    returns (states: seq<State>, steps: seq<Step>)
    requires p.huddle == q.huddle && p.user != q.user && p.id != q.id
    ensures IsRun(states, steps)
    ensures steps == [StartJoin(t, p), WriteJoin(t, deadline, 1, status), CommitJoin(t),
                      BeginJoin(t, q), WriteJoin(t, deadline, 2, status)]
    ensures var s := states[5];
            && s == State(s.redis, map[p.huddle := Active], map[t := Joining(q, false, true)], {}, {}, {}, multiset{}, {})
            && s.redis.seats == map[p.user := SeatFor(p, deadline, status), q.user := SeatFor(q, deadline, status)]
  {
    states, steps := Started(t, p, deadline, status);
    SecondSeat(states[3], t, p, q, deadline, status);
    states, steps := Then(states, steps, BeginJoin(t, q));
    states, steps := Then(states, steps, WriteJoin(t, deadline, 2, status));
  }

  lemma Started(t: Ulid, p: M.Participant, deadline: int, status: M.Status) returns (states: seq<State>, steps: seq<Step>)
    ensures IsRun(states, steps) && steps == [StartJoin(t, p), WriteJoin(t, deadline, 1, status), CommitJoin(t)]
    ensures states[3] == State(states[3].redis, map[p.huddle := Active], map[], {}, {}, {}, multiset{}, {})
    ensures states[3].redis.seats == map[p.user := SeatFor(p, deadline, status)]
  {
    states, steps := Starts([INITIAL], [], t, p, deadline, status);
    states, steps := Then(states, steps, CommitJoin(t));
    assert states[3].txs == map[];
  }

  lemma SecondSeat(s: State, t: Ulid, p: M.Participant, q: M.Participant, deadline: int, status: M.Status)
    requires p.huddle == q.huddle && p.user != q.user && p.id != q.id
    requires s == State(s.redis, map[p.huddle := Active], map[], {}, {}, {}, multiset{}, {})
    requires s.redis.seats == map[p.user := SeatFor(p, deadline, status)]
    ensures Legal(s, BeginJoin(t, q)) && Legal(Next(s, BeginJoin(t, q)), WriteJoin(t, deadline, 2, status))
    ensures var n := Next(Next(s, BeginJoin(t, q)), WriteJoin(t, deadline, 2, status));
            && n == s.(redis := n.redis, txs := map[t := Joining(q, false, true)])
            && n.redis.seats == map[p.user := SeatFor(p, deadline, status), q.user := SeatFor(q, deadline, status)]
  {
    assert M.Occupants(s.redis, q.huddle) - {q.user} == {p.user};
    Seats(Next(s, BeginJoin(t, q)), t, deadline, 2, status);
  }

  lemma RemovesHolder(s: M.State, huddle: Ulid, id: Ulid, user: Ulid)
    requires M.Holders(s, huddle, id) == {user}
    ensures M.Remove(s, huddle, id).seats == s.seats - {user}
  {
    assert user in M.Holders(s, huddle, id);
  }

  /** The first person leaves, and the second one's join fails. */
  lemma OneLeavesOneFails(t: Ulid, p: M.Participant, q: M.Participant, deadline: int, status: M.Status)
    returns (states: seq<State>, steps: seq<Step>)
    requires p.huddle == q.huddle && p.user != q.user && p.id != q.id
    ensures IsRun(states, steps)
    ensures steps == [StartJoin(t, p), WriteJoin(t, deadline, 1, status), CommitJoin(t), BeginJoin(t, q), WriteJoin(t, deadline, 2, status),
                      Script(M.DoRemove(p.huddle, p.id)), FailJoin(t, false)]
    ensures var s := states[7];
            && s == State(s.redis, map[p.huddle := Active], map[], {(q.huddle, q.id)}, {}, {}, multiset{p.huddle}, {})
            && s.redis.seats == map[q.user := SeatFor(q, deadline, status)]
  {
    states, steps := BothSeated(t, p, q, deadline, status);
    assert M.Holders(states[5].redis, p.huddle, p.id) == {p.user};
    RemovesHolder(states[5].redis, p.huddle, p.id, p.user);
    states, steps := Then(states, steps, Script(M.DoRemove(p.huddle, p.id)));
    assert Bereft(states[5].redis, states[6].redis) == {p.huddle};
    states, steps := Then(states, steps, FailJoin(t, false));
    assert states[7].txs == map[];
  }

  /** The first person's leaving is checked on while the second one's failed join is not undone yet, and the undo is not checked
      on: active, empty, and nothing owed. */
  lemma UndoLeavesItEmpty(t: Ulid, p: M.Participant, q: M.Participant, deadline: int, status: M.Status)
    returns (states: seq<State>, steps: seq<Step>)
    requires p.huddle == q.huddle && p.user != q.user && p.id != q.id
    ensures IsRun(states, steps)
    ensures steps == [StartJoin(t, p), WriteJoin(t, deadline, 1, status), CommitJoin(t), BeginJoin(t, q), WriteJoin(t, deadline, 2, status),
                      Script(M.DoRemove(p.huddle, p.id)), FailJoin(t, false), BeginEnd(t, q.huddle), Look(t), Undo((q.huddle, q.id))]
    ensures Legal(states[9], Undo((q.huddle, q.id))) && !LeavesSome(states[9], Undo((q.huddle, q.id)))
    ensures var s := states[|steps|];
            && IsActive(s, p.huddle) && M.Occupants(s.redis, p.huddle) == {}
            && s.txs == map[] && s.undos == {} && s.looks == multiset{} && s.clears == {} && s.closings == {}
  {
    states, steps := OneLeavesOneFails(t, p, q, deadline, status);
    states, steps := Then(states, steps, BeginEnd(t, q.huddle));
    assert q.user in M.Occupants(states[8].redis, q.huddle);
    states, steps := Then(states, steps, Look(t));
    UndoEmpties(states[9], q);
    states, steps := Then(states, steps, Undo((q.huddle, q.id)));
  }

  lemma UndoEmpties(s: State, q: M.Participant)
    requires s.redis.seats.Keys == {q.user} && s.redis.seats[q.user].who == q
    requires s == State(s.redis, map[q.huddle := Active], map[], {(q.huddle, q.id)}, {}, {}, multiset{}, {})
    ensures !LeavesSome(s, Undo((q.huddle, q.id)))
    ensures var n := Next(s, Undo((q.huddle, q.id)));
            n == State(n.redis, s.rows, map[], {}, {}, {}, multiset{}, {}) && n.redis.seats == map[]
  {
    assert M.Holders(s.redis, q.huddle, q.id) == {q.user};
    RemovesHolder(s.redis, q.huddle, q.id, q.user);
    assert M.Occupants(s.redis, q.huddle) == {q.user};
    assert !LeavesSomeIn(s, Undo((q.huddle, q.id)), q.huddle);
  }

  /** The only person in a huddle starts another one; the script takes the person out of the first, and its result is lost: no
      check is owed for the first huddle, and the second start is undone in Postgres but not in Redis. */
  lemma LostReplyLeavesItEmpty(t: Ulid, p: M.Participant, q: M.Participant, deadline: int, status: M.Status)
    returns (states: seq<State>, steps: seq<Step>)
    requires p.huddle != q.huddle && p.user == q.user
    ensures IsRun(states, steps)
    ensures steps == [StartJoin(t, p), WriteJoin(t, deadline, 1, status), CommitJoin(t), StartJoin(t, q), LoseJoin(t, deadline, 1, status)]
    ensures Legal(states[4], LoseJoin(t, deadline, 1, status)) && !LeavesSome(states[4], LoseJoin(t, deadline, 1, status))
    ensures var s := states[|steps|];
            && IsActive(s, p.huddle) && M.Occupants(s.redis, p.huddle) == {}
            && s.txs == map[] && s.undos == {} && s.looks == multiset{} && s.clears == {} && s.closings == {}
            && q.huddle !in s.rows && M.Occupants(s.redis, q.huddle) == {q.user} && s.strays == {(q.huddle, q.id)}
  {
    states, steps := Started(t, p, deadline, status);
    LosesBoth(states[3], t, p, q, deadline, status);
    states, steps := Then(states, steps, StartJoin(t, q));
    states, steps := Then(states, steps, LoseJoin(t, deadline, 1, status));
  }

  lemma LosesBoth(s: State, t: Ulid, p: M.Participant, q: M.Participant, deadline: int, status: M.Status)
    requires p.huddle != q.huddle && p.user == q.user
    requires s == State(s.redis, map[p.huddle := Active], map[], {}, {}, {}, multiset{}, {})
    requires s.redis.seats == map[p.user := SeatFor(p, deadline, status)]
    ensures Legal(s, StartJoin(t, q)) && Legal(Next(s, StartJoin(t, q)), LoseJoin(t, deadline, 1, status))
    ensures !LeavesSome(Next(s, StartJoin(t, q)), LoseJoin(t, deadline, 1, status))
    ensures var n := Next(Next(s, StartJoin(t, q)), LoseJoin(t, deadline, 1, status));
            && n == State(n.redis, s.rows, map[], {}, {}, {}, multiset{}, {(q.huddle, q.id)})
            && M.Occupants(n.redis, p.huddle) == {} && M.Occupants(n.redis, q.huddle) == {q.user}
  {
    assert M.Occupants(s.redis, p.huddle) == {p.user} && M.Occupants(s.redis, q.huddle) == {};
    JoinedOccupants(s.redis, q, deadline, 1, status, p.huddle);
    JoinedOccupants(s.redis, q, deadline, 1, status, q.huddle);
    LostOne(Next(s, StartJoin(t, q)), t, p, q, deadline, status);
  }

  lemma LostOne(m: State, t: Ulid, p: M.Participant, q: M.Participant, deadline: int, status: M.Status)
    requires p.huddle != q.huddle && p.user == q.user && q.user in m.redis.seats && m.redis.seats[q.user].who == p
    requires M.Occupants(m.redis, p.huddle) == {p.user} && M.Occupants(m.redis, q.huddle) == {}
    requires m == State(m.redis, map[p.huddle := Active], map[t := Joining(q, true, false)], {}, {}, {}, multiset{}, {})
    requires Legal(m, LoseJoin(t, deadline, 1, status))
    ensures !LeavesSome(m, LoseJoin(t, deadline, 1, status))
    ensures var n := Next(m, LoseJoin(t, deadline, 1, status));
            && n == State(M.Join(m.redis, q, deadline, 1, status).0, m.rows, map[], {}, {}, {}, multiset{}, {(q.huddle, q.id)})
            && !M.Join(m.redis, q, deadline, 1, status).1.Full?
  {
    assert m.txs - {t} == map[];
    assert !LeavesSomeIn(m, LoseJoin(t, deadline, 1, status), p.huddle);
  }
}
