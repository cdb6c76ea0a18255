/** Nobody waits for nothing: whoever waits for a number is woken once it is acknowledged, and until then its PING is on its way. */
module BrokerWaiting {
  import opened Common
  import opened BrokerProtocol
  import opened BrokerSafety
  import opened Runs

  predicate HasToken(op: Op) {
    op.Pinging? || op.Waiting?
  }

  /** The PING is in the pipe or its PONG among the replies. */
  ghost predicate OnItsWay(s: State, token: nat) {
    Ping(token) in s.pipe || Reply.Pong(token) in s.replies
  }

  /** A call that holds a token is woken or registered, and once it waits its answer is on the way. */
  ghost predicate Attended(s: State, op: Op)
    requires HasToken(op)
  {
    && op.token <= s.sequence
    && (op.token in s.woken || op.token in s.waiters)
    && (op.Waiting? ==> op.token in s.woken || OnItsWay(s, op.token))
  }

  ghost predicate TokensApart(ops: map<Ulid, Op>) {
    forall o, p :: o in ops && p in ops && HasToken(ops[o]) && HasToken(ops[p]) && ops[o].token == ops[p].token ==> o == p
  }

  /** Some call holds the token. */
  ghost predicate Held(ops: map<Ulid, Op>, token: nat) {
    exists o :: o in ops && HasToken(ops[o]) && ops[o].token == token
  }

  ghost predicate Waits(s: State) {
    && (forall t :: t in s.waiters ==> t > s.acked && Held(s.ops, t)) && (forall t :: t in s.woken ==> t <= s.acked)
    && (forall o :: o in s.ops && HasToken(s.ops[o]) ==> Attended(s, s.ops[o]))
    && TokensApart(s.ops)
  }

  /** Redis turns a PING into its PONG and loses neither. */
  lemma ProcessCarriesOn(s: State, token: nat)
    requires s.pipe != [] && OnItsWay(s, token)
    ensures OnItsWay(Processed(s), token)
  {
    var n := Processed(s);
    if Ping(token) in s.pipe {
      if s.pipe[0] == Ping(token) {
        assert n.replies[|s.replies|] == Reply.Pong(token);
      } else {
        assert Ping(token) in s.pipe[1..];
      }
    } else {
      var i :| 0 <= i < |s.replies| && s.replies[i] == Reply.Pong(token);
      assert n.replies[i] == Reply.Pong(token);
    }
  }

  /** A PONG wakes everybody at or below its number. */
  lemma ReceiveWakes(s: State, token: nat)
    requires s.replies != [] && OnItsWay(s, token) && token in s.waiters && token > s.acked
    ensures token in Received(s).woken || (token in Received(s).waiters && OnItsWay(Received(s), token))
    ensures token in Received(s).waiters ==> token > Received(s).acked
  {
    if Reply.Pong(token) in s.replies && s.replies[0] != Reply.Pong(token) {
      assert Reply.Pong(token) in s.replies[1..];
    }
  }

  lemma ReceiveKeepsWaits(s: State)
    requires Waits(s) && s.replies != []
    ensures Waits(Received(s))
  {
    var n := Received(s);
    forall o | o in n.ops && HasToken(n.ops[o]) ensures Attended(n, n.ops[o]) {
      assert Attended(s, s.ops[o]);
      if s.ops[o].token !in s.woken && s.ops[o].Waiting? { ReceiveWakes(s, s.ops[o].token); }
    }
  }

  lemma ProcessKeepsWaits(s: State)
    requires Waits(s) && s.pipe != []
    ensures Waits(Processed(s))
  {
    var n := Processed(s);
    forall o | o in n.ops && HasToken(n.ops[o]) ensures Attended(n, n.ops[o]) {
      assert Attended(s, s.ops[o]);
      if OnItsWay(s, s.ops[o].token) { ProcessCarriesOn(s, s.ops[o].token); }
    }
  }

  /** What is sent or published later takes nothing off its way. */
  lemma StaysOnItsWay(s: State, n: State, token: nat)
    requires s.pipe <= n.pipe && s.replies <= n.replies && OnItsWay(s, token)
    ensures OnItsWay(n, token)
  {
    if i :| 0 <= i < |s.pipe| && s.pipe[i] == Ping(token) { assert n.pipe[i] == Ping(token); }
    if i :| 0 <= i < |s.replies| && s.replies[i] == Reply.Pong(token) { assert n.replies[i] == Reply.Pong(token); }
  }

  /** A step of one operation that neither takes a token nor gives one up. */
  lemma TokenlessKeepsWaits(s: State, n: State, o: Ulid)
    requires Waits(s) && s.pipe <= n.pipe && s.replies <= n.replies && s.sequence <= n.sequence
    requires n.acked == s.acked && n.waiters == s.waiters && n.woken == s.woken
    requires (o in n.ops ==> !HasToken(n.ops[o])) && (o in s.ops ==> !HasToken(s.ops[o]))
    requires n.ops - {o} == s.ops - {o}
    ensures Waits(n)
  {
    forall p | p != o ensures (p in n.ops <==> p in s.ops) && (p in n.ops ==> n.ops[p] == s.ops[p]) {
      assert p in n.ops - {o} <==> p in s.ops - {o};
      assert p in n.ops ==> (n.ops - {o})[p] == (s.ops - {o})[p];
    }
    forall t | t in n.waiters ensures Held(n.ops, t) {
      var p :| p in s.ops && HasToken(s.ops[p]) && s.ops[p].token == t;
      assert p in n.ops;
    }
    forall p | p in n.ops && HasToken(n.ops[p]) ensures Attended(n, n.ops[p]) {
      assert Attended(s, s.ops[p]);
      if OnItsWay(s, s.ops[p].token) { StaysOnItsWay(s, n, s.ops[p].token); }
    }
  }

  lemma TakeTokenKeepsWaits(s: State, o: Ulid)
    requires Waits(s) && Legal(s, TakeToken(o)) && s.acked <= s.sequence
    ensures Waits(Next(s, TakeToken(o)))
  {
    var n := Next(s, TakeToken(o));
    forall t | t in n.waiters ensures t > n.acked && Held(n.ops, t) {
      if t == s.sequence + 1 {
        assert n.ops[o].token == t;
      } else {
        var p :| p in s.ops && HasToken(s.ops[p]) && s.ops[p].token == t;
        assert p in n.ops && n.ops[p] == s.ops[p];
      }
    }
    forall p | p in n.ops && HasToken(n.ops[p]) ensures Attended(n, n.ops[p]) && (p != o ==> n.ops[p].token <= s.sequence) {
      if p != o { assert Attended(s, s.ops[p]); }
    }
  }

  lemma SendPingKeepsWaits(s: State, o: Ulid)
    requires Waits(s) && Legal(s, SendPing(o))
    ensures Waits(Next(s, SendPing(o)))
  {
    var n := Next(s, SendPing(o));
    forall t | t in n.waiters ensures Held(n.ops, t) {
      var p :| p in s.ops && HasToken(s.ops[p]) && s.ops[p].token == t;
      assert p in n.ops && HasToken(n.ops[p]) && n.ops[p].token == t;
    }
    forall p | p in n.ops && HasToken(n.ops[p]) ensures Attended(n, n.ops[p]) && n.ops[p].token == s.ops[p].token {
      assert Attended(s, s.ops[p]);
      if p == o {
        assert n.pipe[|s.pipe|] == Ping(s.ops[o].token);
      } else if OnItsWay(s, s.ops[p].token) {
        StaysOnItsWay(s, n, s.ops[p].token);
      }
    }
  }

  /** A waiter that leaves takes only its own token. */
  lemma LeavingKeepsWaits(s: State, step: Step, o: Ulid)
    requires Waits(s) && Legal(s, step) && (step == Wake(o) || step == GiveUp(o))
    ensures Waits(Next(s, step))
  {
    var n := Next(s, step);
    forall t | t in n.waiters ensures Held(n.ops, t) {
      var p :| p in s.ops && HasToken(s.ops[p]) && s.ops[p].token == t;
      assert p != o && p in n.ops && n.ops[p] == s.ops[p];
    }
    forall p | p in n.ops && HasToken(n.ops[p]) ensures Attended(n, n.ops[p]) {
      assert p != o && Attended(s, s.ops[p]);
      if OnItsWay(s, s.ops[p].token) { StaysOnItsWay(s, n, s.ops[p].token); }
    }
  }

  lemma StepKeepsWaits(s: State, step: Step)
    requires Waits(s) && s.acked <= s.sequence && Legal(s, step)
    ensures Waits(Next(s, step))
  {
    match step
    case TakeToken(o) => TakeTokenKeepsWaits(s, o);
    case SendPing(o) => SendPingKeepsWaits(s, o);
    case Wake(o) => LeavingKeepsWaits(s, step, o);
    case GiveUp(o) => LeavingKeepsWaits(s, step, o);
    case Process => ProcessKeepsWaits(s);
    case Receive => ReceiveKeepsWaits(s);
    case Publish(_, m) => PublishKeepsWaits(s, step);
    case AcquireBegin(o, _) => TokenlessKeepsWaits(s, Next(s, step), o);
    case SendSub(o) => TokenlessKeepsWaits(s, Next(s, step), o);
    case Number(o) => TokenlessKeepsWaits(s, Next(s, step), o);
    case Check(o) => TokenlessKeepsWaits(s, Next(s, step), o);
    case SyncBegin(o) => TokenlessKeepsWaits(s, Next(s, step), o);
    case ReleaseBegin(o) => TokenlessKeepsWaits(s, Next(s, step), o);
    case ReleaseEnd(o) => TokenlessKeepsWaits(s, Next(s, step), o);
  }

  lemma PublishKeepsWaits(s: State, step: Step)
    requires Waits(s) && Legal(s, step) && step.Publish?
    ensures Waits(Next(s, step))
  {
    var n := Next(s, step);
    forall p | p in n.ops && HasToken(n.ops[p]) ensures Attended(n, n.ops[p]) {
      assert Attended(s, s.ops[p]);
      if OnItsWay(s, s.ops[p].token) { StaysOnItsWay(s, n, s.ops[p].token); }
    }
  }

  lemma {:induction false} RunKeepsWaits(states: seq<State>, steps: seq<Step>, i: nat)
    requires IsRun(states, steps) && i <= |steps|
    ensures Waits(states[i])
  {
    if i > 0 {
      RunKeepsWaits(states, steps, i - 1);
      RunKeepsInv(states, steps, i - 1);
      assert StepAt(IsStep, states, steps, i - 1);
      AckedIsIssued(states[i - 1]);
      StepKeepsWaits(states[i - 1], steps[i - 1]);
    }
  }

  lemma AckedIsIssued(s: State)
    requires Inv(s)
    ensures s.acked <= s.sequence
  {
  }

  /** In every run, whoever waits for a number can go on as soon as that number or a later one is acknowledged, and until then its PING
      is in the pipe or its PONG among the replies, so that Redis and the receiving loop only have to go on. */
  lemma NobodyWaitsForNothing(states: seq<State>, steps: seq<Step>, o: Ulid)
    requires IsRun(states, steps) && o in states[|steps|].ops && states[|steps|].ops[o].Waiting?
    ensures var s := states[|steps|];
            var token := s.ops[o].token;
            if token <= s.acked then Legal(s, Wake(o)) else Legal(s, Wake(o)) || Ping(token) in s.pipe || Reply.Pong(token) in s.replies
  {
    RunKeepsWaits(states, steps, |steps|);
    assert Attended(states[|steps|], states[|steps|].ops[o]);
  }

  /** No waiter outlives its call: whatever is registered belongs to a call that holds its number. */
  lemma NoWaiterIsLeft(states: seq<State>, steps: seq<Step>, t: nat)
    requires IsRun(states, steps) && t in states[|steps|].waiters
    ensures var s := states[|steps|];
            t > s.acked && exists o :: o in s.ops && (s.ops[o].Pinging? || s.ops[o].Waiting?) && s.ops[o].token == t
  {
    RunKeepsWaits(states, steps, |steps|);
    var o :| o in states[|steps|].ops && HasToken(states[|steps|].ops[o]) && states[|steps|].ops[o].token == t;
  }

  /** The PONG of the number, or of any later one, lets it go on. */
  lemma PongLetsGo(states: seq<State>, steps: seq<Step>, o: Ulid, n: nat)
    requires IsRun(states, steps) && o in states[|steps|].ops && states[|steps|].ops[o].Waiting?
    requires var s := states[|steps|]; s.replies != [] && s.replies[0] == Reply.Pong(n) && s.ops[o].token <= n
    ensures Legal(Next(states[|steps|], Receive), Wake(o))
  {
    var s := states[|steps|];
    RunKeepsWaits(states, steps, |steps|);
    ReceiveKeepsWaits(s);
    assert Attended(Received(s), s.ops[o]);
  }
}
