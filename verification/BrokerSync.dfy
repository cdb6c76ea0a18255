/** Sync: when it returns, every message Redis had accepted for this instance has been handed over. */
module BrokerSync {
  import opened Common
  import opened BrokerProtocol
  import opened Runs
  import opened BrokerSafety

  // ---- the invariant ----

  /** What Redis accepted is what was handed over and then what is on its way, in order. */
  ghost predicate NothingLost(s: State) {
    s.emitted == s.delivered + Messages(s.replies)
  }

  /** Before any PONG that could wake the caller come enough messages. */
  ghost predicate MarkKept(s: State, op: Op) {
    match op
    case Asking(_, mark) => mark <= |s.emitted|
    case Pinging(_, token, mark) => Reaches(s, token, mark)
    case Waiting(_, token, mark) => Reaches(s, token, mark)
    case Synced(mark) => mark <= |s.delivered|
    case _ => true
  }

  ghost predicate Reaches(s: State, token: nat, mark: nat) {
    && mark <= |s.emitted|
    && (token <= s.acked ==> mark <= |s.delivered|)
    && forall i {:trigger s.replies[i]} :: 0 <= i < |s.replies| && s.replies[i].Pong? && s.replies[i].n >= token ==> EnoughBefore(s, i, mark)
  }

  ghost predicate EnoughBefore(s: State, i: nat, mark: nat)
    requires i < |s.replies|
  {
    mark <= |s.delivered| + |Messages(s.replies[..i])|
  }

  ghost predicate MarksKept(s: State) {
    forall o :: o in s.ops ==> MarkKept(s, s.ops[o])
  }

  lemma ReceiveKeepsReach(s: State, token: nat, mark: nat)
    requires NothingLost(s) && s.replies != [] && Reaches(s, token, mark)
    ensures Reaches(Received(s), token, mark)
  {
    var n := Received(s);
    assert s.replies[..0] == [];
    if s.replies[0].Pong? && s.replies[0].n >= token { assert EnoughBefore(s, 0, mark); }
    forall i | 0 <= i < |n.replies| && n.replies[i].Pong? && n.replies[i].n >= token ensures EnoughBefore(n, i, mark) {
      assert s.replies[i + 1] == n.replies[i] && EnoughBefore(s, i + 1, mark);
      assert s.replies[..i + 1][1..] == n.replies[..i];
    }
  }

  lemma ProcessKeepsReach(s: State, token: nat, mark: nat)
    requires NothingLost(s) && s.pipe != [] && Reaches(s, token, mark)
    ensures Reaches(Processed(s), token, mark)
  {
    var n := Processed(s);
    forall i | 0 <= i < |n.replies| && n.replies[i].Pong? && n.replies[i].n >= token ensures EnoughBefore(n, i, mark) {
      if i < |s.replies| {
        assert s.replies[i] == n.replies[i] && EnoughBefore(s, i, mark);
        assert n.replies[..i] == s.replies[..i];
      } else {
        assert n.replies[..i] == s.replies;
      }
    }
  }

  lemma PublishKeepsReach(s: State, m: Ulid, token: nat, mark: nat)
    requires Reaches(s, token, mark)
    ensures Reaches(s.(replies := s.replies + [Msg(m)], emitted := s.emitted + [m]), token, mark)
  {
    var n := s.(replies := s.replies + [Msg(m)], emitted := s.emitted + [m]);
    forall i | 0 <= i < |n.replies| && n.replies[i].Pong? && n.replies[i].n >= token ensures EnoughBefore(n, i, mark) {
      assert s.replies[i] == n.replies[i] && EnoughBefore(s, i, mark);
      assert n.replies[..i] == s.replies[..i];
    }
  }

  /** Redis and the receiving loop move; every operation keeps its mark. */
  lemma WireKeepsMark(s: State, step: Step, op: Op)
    requires NothingLost(s) && Legal(s, step) && (step.Process? || step.Publish? || step.Receive?) && MarkKept(s, op)
    ensures MarkKept(Next(s, step), op)
  {
    if op.Pinging? || op.Waiting? {
      if step.Process? {
        ProcessKeepsReach(s, op.token, op.mark);
      } else if step.Receive? {
        ReceiveKeepsReach(s, op.token, op.mark);
      } else if step.ch in s.live {
        PublishKeepsReach(s, step.m, op.token, op.mark);
      }
    }
  }

  ghost predicate SameWire(s: State, n: State) {
    n.acked == s.acked && n.replies == s.replies && n.emitted == s.emitted && n.delivered == s.delivered
  }

  /** The other steps leave what is on its way alone, and an operation either stays or moves on. */
  lemma CallsKeepWire(s: State, step: Step)
    requires Legal(s, step) && !(step.Process? || step.Publish? || step.Receive?)
    ensures SameWire(s, Next(s, step))
  {
  }

  lemma SameReach(s: State, n: State, token: nat, mark: nat)
    requires SameWire(s, n) && Reaches(s, token, mark)
    ensures Reaches(n, token, mark)
  {
    forall i | 0 <= i < |n.replies| && n.replies[i].Pong? && n.replies[i].n >= token ensures EnoughBefore(n, i, mark) {
      assert EnoughBefore(s, i, mark);
    }
  }

  lemma SameMark(s: State, n: State, op: Op)
    requires SameWire(s, n) && MarkKept(s, op)
    ensures MarkKept(n, op)
  {
    if op.Pinging? || op.Waiting? { SameReach(s, n, op.token, op.mark); }
  }

  lemma CallMovesMark(s: State, step: Step, o: Ulid)
    requires Inv(s) && MarksKept(s) && Legal(s, step) && !(step.Process? || step.Publish? || step.Receive?)
    requires o in Next(s, step).ops && (o in s.ops ==> s.ops[o] != Next(s, step).ops[o])
    ensures MarkKept(Next(s, step), Next(s, step).ops[o])
  {
    var n := Next(s, step);
    CallsKeepWire(s, step);
    if o in s.ops {
      var op := s.ops[o];
      assert MarkKept(s, op);
      if step.SendPing? { SameReach(s, n, op.token, op.mark); }
    }
  }

  lemma StepKeepsMarks(s: State, step: Step)
    requires Inv(s) && NothingLost(s) && MarksKept(s) && Legal(s, step)
    ensures NothingLost(Next(s, step)) && MarksKept(Next(s, step))
  {
    var n := Next(s, step);
    if step.Process? || step.Publish? || step.Receive? {
      WireKeepsMessages(s, step);
      forall o | o in n.ops ensures MarkKept(n, n.ops[o]) {
        WireKeepsMark(s, step, s.ops[o]);
      }
    } else {
      CallsKeepWire(s, step);
      forall o | o in n.ops ensures MarkKept(n, n.ops[o]) {
        if o in s.ops && s.ops[o] == n.ops[o] {
          SameMark(s, n, s.ops[o]);
        } else {
          CallMovesMark(s, step, o);
        }
      }
    }
  }

  lemma ProcessKeepsMessages(s: State)
    requires NothingLost(s) && s.pipe != []
    ensures NothingLost(Processed(s)) && Processed(s).ops == s.ops
  {
    if s.pipe[0].Ping? { MessagesPush(s.replies, Pong(s.pipe[0].n)); }
  }

  lemma PublishKeepsMessages(s: State, ch: Channel, m: Ulid)
    requires NothingLost(s)
    ensures NothingLost(Next(s, Publish(ch, m))) && Next(s, Publish(ch, m)).ops == s.ops
  {
    MessagesPush(s.replies, Msg(m));
  }

  lemma ReceiveKeepsMessages(s: State)
    requires NothingLost(s) && s.replies != []
    ensures NothingLost(Received(s)) && Received(s).ops == s.ops
  {
    assert Messages(s.replies) == (if s.replies[0].Msg? then [s.replies[0].m] else []) + Messages(s.replies[1..]);
  }

  lemma WireKeepsMessages(s: State, step: Step)
    requires NothingLost(s) && Legal(s, step) && (step.Process? || step.Publish? || step.Receive?)
    ensures NothingLost(Next(s, step)) && Next(s, step).ops == s.ops
  {
    match step
    case Process => ProcessKeepsMessages(s);
    case Publish(ch, m) => PublishKeepsMessages(s, ch, m);
    case Receive => ReceiveKeepsMessages(s);
  }

  lemma {:induction false} RunKeepsMarks(states: seq<State>, steps: seq<Step>, i: nat)
    requires IsRun(states, steps) && i <= |steps|
    ensures NothingLost(states[i]) && MarksKept(states[i])
  {
    if i > 0 {
      RunKeepsMarks(states, steps, i - 1);
      RunKeepsInv(states, steps, i - 1);
      assert StepAt(IsStep, states, steps, i - 1);
      StepKeepsMarks(states[i - 1], steps[i - 1]);
    }
  }

  // ---- the theorem ----

  ghost predicate IsSync(op: Op, mark: nat) {
    match op
    case Asking(g, m) => g == None && m == mark
    case Pinging(g, _, m) => g == None && m == mark
    case Waiting(g, _, m) => g == None && m == mark
    case Synced(m) => m == mark
    case _ => false
  }

  lemma SyncMovesOn(s: State, step: Step, o: Ulid, mark: nat)
    requires Legal(s, step) && o in s.ops && IsSync(s.ops[o], mark) && o in Next(s, step).ops
    ensures IsSync(Next(s, step).ops[o], mark)
    ensures s.emitted <= Next(s, step).emitted
  {
  }

  lemma {:induction false} SyncKeepsMark(states: seq<State>, steps: seq<Step>, o: Ulid, i: nat, k: nat)
    requires IsRun(states, steps) && i < k <= |steps| && steps[i] == SyncBegin(o)
    requires forall x :: i < x <= k ==> o in states[x].ops
    ensures IsSync(states[k].ops[o], |states[i].emitted|) && states[i].emitted <= states[k].emitted
    decreases k
  {
    assert StepAt(IsStep, states, steps, k - 1);
    if k > i + 1 {
      SyncKeepsMark(states, steps, o, i, k - 1);
      SyncMovesOn(states[k - 1], steps[k - 1], o, |states[i].emitted|);
    }
  }

  /** When a Sync that began at step `i` has returned, everything Redis had accepted for this instance by then has been handed
      to the receiver, in order. */
  lemma SyncDelivers(states: seq<State>, steps: seq<Step>, o: Ulid, i: nat)
    requires IsRun(states, steps) && i < |steps| && steps[i] == SyncBegin(o)
    requires forall x :: i < x <= |steps| ==> o in states[x].ops
    requires states[|steps|].ops[o].Synced?
    ensures states[i].emitted <= states[|steps|].delivered
  {
    var s := states[|steps|];
    SyncKeepsMark(states, steps, o, i, |steps|);
    RunKeepsMarks(states, steps, |steps|);
    assert MarkKept(s, s.ops[o]);
    assert states[i].emitted == s.emitted[..|states[i].emitted|] == s.delivered[..|states[i].emitted|];
  }
}
