/** Reference-counted Redis subscriptions, confirmed by numbered PINGs over a connection that keeps its order.

    Acquire, Sync and Release each take several steps. All sends happen under the write lock, so at most one operation is
    inside it; Redis and the receiving loop move in between. Sends succeed and the connection is not replaced. The instance's
    own control channel is subscribed before the Broker exists and is never among the channels here. */
module BrokerProtocol {
  import opened Common
  import opened Runs

  datatype Cmd = Sub(ch: Channel, n: nat) | Unsub(ch: Channel) | Ping(n: nat)

  datatype Reply = Pong(n: nat) | Msg(m: Ulid)

  /** `mark` is how many messages Redis had accepted for this instance when the call began. */
  datatype Op =
    | Counted(ch: Channel, first: bool)
    | Sent(ch: Channel)
    | Numbered(ch: Channel)
    | Asking(goal: Option<Channel>, mark: nat)
    | Pinging(goal: Option<Channel>, token: nat, mark: nat)
    | Waiting(goal: Option<Channel>, token: nat, mark: nat)
    | Acquired(ch: Channel)
    | Failed(ch: Channel)
    | Dropping(ch: Channel, last: bool)
    | Synced(mark: nat)

  /** `pipe` holds what was sent and Redis has not processed, `replies` what Redis sent and Run has not received. */
  datatype State = State(refs: map<Channel, nat>, subscribedAt: map<Channel, nat>, sequence: nat, acked: nat,
                         waiters: set<nat>, woken: set<nat>, ops: map<Ulid, Op>,
                         pipe: seq<Cmd>, live: set<Channel>, replies: seq<Reply>,
                         emitted: seq<Ulid>, delivered: seq<Ulid>)

  const INITIAL := State(map[], map[], 0, 0, {}, {}, map[], [], {}, [], [], [])

  datatype Step =
    | AcquireBegin(o: Ulid, ch: Channel)
    | SendSub(o: Ulid)
    | Number(o: Ulid)
    | Check(o: Ulid)
    | SyncBegin(o: Ulid)
    | TakeToken(o: Ulid)
    | SendPing(o: Ulid)
    | Wake(o: Ulid)
    | GiveUp(o: Ulid)
    | ReleaseBegin(o: Ulid)
    | ReleaseEnd(o: Ulid)
    | Process
    | Publish(ch: Channel, m: Ulid)
    | Receive

  predicate UnderLock(op: Op) {
    op.Counted? || op.Sent? || op.Numbered? || op.Asking? || op.Pinging? || op.Dropping?
  }

  /** The operation has counted the channel and not yet given it back. */
  predicate Carries(op: Op, ch: Channel) {
    match op
    case Counted(c, _) => c == ch
    case Sent(c) => c == ch
    case Numbered(c) => c == ch
    case Asking(g, _) => g == Some(ch)
    case Pinging(g, _, _) => g == Some(ch)
    case Waiting(g, _, _) => g == Some(ch)
    case Acquired(c) => c == ch
    case Failed(c) => c == ch
    case Dropping(_, _) => false
    case Synced(_) => false
  }

  ghost predicate LockFree(s: State) {
    forall o :: o in s.ops ==> !UnderLock(s.ops[o])
  }

  function Count(refs: map<Channel, nat>, ch: Channel): nat {
    if ch in refs then refs[ch] else 0
  }

  function Set(s: State, o: Ulid, op: Op): State {
    s.(ops := s.ops[o := op])
  }

  ghost predicate Legal(s: State, step: Step) {
    match step
    case AcquireBegin(o, _) => o !in s.ops && LockFree(s)
    case SendSub(o) => o in s.ops && s.ops[o].Counted?
    case Number(o) => o in s.ops && s.ops[o].Sent?
    case Check(o) => o in s.ops && s.ops[o].Numbered?
    case SyncBegin(o) => o !in s.ops && LockFree(s)
    case TakeToken(o) => o in s.ops && s.ops[o].Asking?
    case SendPing(o) => o in s.ops && s.ops[o].Pinging?
    case Wake(o) => o in s.ops && s.ops[o].Waiting? && s.ops[o].token in s.woken
    case GiveUp(o) => o in s.ops && s.ops[o].Waiting?
    case ReleaseBegin(o) => o in s.ops && (s.ops[o].Acquired? || s.ops[o].Failed?) && LockFree(s)
    case ReleaseEnd(o) => o in s.ops && s.ops[o].Dropping?
    case Process => s.pipe != []
    case Publish(_, _) => true
    case Receive => s.replies != []
  }

  /** Redis takes the next command. */
  function Processed(s: State): State
    requires s.pipe != []
  {
    var rest := s.(pipe := s.pipe[1..]);
    match s.pipe[0]
    case Sub(ch, _) => rest.(live := s.live + {ch})
    case Unsub(ch) => rest.(live := s.live - {ch})
    case Ping(n) => rest.(replies := s.replies + [Pong(n)])
  }

  /** Run takes the next reply; a PONG wakes everybody waiting for its number or an earlier one. */
  function Received(s: State): State
    requires s.replies != []
  {
    var rest := s.(replies := s.replies[1..]);
    match s.replies[0]
    case Pong(n) =>
      var acked := if n > s.acked then n else s.acked;
      var due := set t | t in s.waiters && t <= acked;
      rest.(acked := acked, waiters := s.waiters - due, woken := s.woken + due)
    case Msg(m) => rest.(delivered := s.delivered + [m])
  }

  ghost function Next(s: State, step: Step): State
    requires Legal(s, step)
  {
    match step
    case AcquireBegin(o, ch) =>
      Set(s, o, Counted(ch, Count(s.refs, ch) == 0)).(refs := s.refs[ch := Count(s.refs, ch) + 1])
    case SendSub(o) =>
      if s.ops[o].first then
        Set(s, o, Sent(s.ops[o].ch)).(pipe := s.pipe + [Sub(s.ops[o].ch, s.sequence + 1)], sequence := s.sequence + 1)
      else Set(s, o, Numbered(s.ops[o].ch))
    case Number(o) => Set(s, o, Numbered(s.ops[o].ch)).(subscribedAt := s.subscribedAt[s.ops[o].ch := s.sequence])
    case Check(o) =>
      var ch := s.ops[o].ch;
      if Count(s.subscribedAt, ch) <= s.acked then Set(s, o, Acquired(ch)) else Set(s, o, Asking(Some(ch), 0))
    case SyncBegin(o) => Set(s, o, Asking(None, |s.emitted|))
    case TakeToken(o) =>
      Set(s, o, Pinging(s.ops[o].goal, s.sequence + 1, s.ops[o].mark)).(sequence := s.sequence + 1, waiters := s.waiters + {s.sequence + 1})
    case SendPing(o) =>
      Set(s, o, Waiting(s.ops[o].goal, s.ops[o].token, s.ops[o].mark)).(pipe := s.pipe + [Ping(s.ops[o].token)])
    case Wake(o) =>
      var op := s.ops[o];
      Set(s, o, if op.goal.Some? then Acquired(op.goal.value) else Synced(op.mark)).(woken := s.woken - {op.token})
    case GiveUp(o) =>
      var op := s.ops[o];
      (if op.goal.Some? then Set(s, o, Failed(op.goal.value)) else s.(ops := s.ops - {o}))
        .(waiters := s.waiters - {op.token}, woken := s.woken - {op.token})
    case ReleaseBegin(o) =>
      var ch := s.ops[o].ch;
      if Count(s.refs, ch) <= 1 then
        Set(s, o, Dropping(ch, true)).(refs := s.refs - {ch}, subscribedAt := s.subscribedAt - {ch})
      else Set(s, o, Dropping(ch, false)).(refs := s.refs[ch := s.refs[ch] - 1])
    case ReleaseEnd(o) =>
      s.(ops := s.ops - {o}, pipe := if s.ops[o].last then s.pipe + [Unsub(s.ops[o].ch)] else s.pipe)
    case Process => Processed(s)
    case Publish(ch, m) =>
      if ch in s.live then s.(replies := s.replies + [Msg(m)], emitted := s.emitted + [m]) else s
    case Receive => Received(s)
  }

  ghost predicate IsStep(s: State, step: Step, n: State) {
    Legal(s, step) && n == Next(s, step)
  }

  ghost predicate IsRun(states: seq<State>, steps: seq<Step>) {
    IsPath(IsStep, states, steps) && states[0] == INITIAL
  }

  // ---- the last word about a channel in the pipe ----

  predicate About(cmd: Cmd, ch: Channel) {
    !cmd.Ping? && cmd.ch == ch
  }

  function LastOf(pipe: seq<Cmd>, ch: Channel): Option<Cmd> {
    if pipe == [] then None
    else if About(pipe[|pipe| - 1], ch) then Some(pipe[|pipe| - 1])
    else LastOf(pipe[..|pipe| - 1], ch)
  }

  /** Whether the channel is subscribed once Redis has processed the pipe. */
  predicate Replayed(live: set<Channel>, pipe: seq<Cmd>, ch: Channel) {
    match LastOf(pipe, ch)
    case None => ch in live
    case Some(cmd) => cmd.Sub?
  }

  lemma LastOfPush(pipe: seq<Cmd>, cmd: Cmd, ch: Channel)
    ensures LastOf(pipe + [cmd], ch) == if About(cmd, ch) then Some(cmd) else LastOf(pipe, ch)
  {
    assert (pipe + [cmd])[..|pipe|] == pipe;
  }

  lemma {:induction false} LastOfPop(pipe: seq<Cmd>, ch: Channel)
    requires pipe != []
    ensures LastOf(pipe, ch) == if LastOf(pipe[1..], ch).Some? then LastOf(pipe[1..], ch)
                                else if About(pipe[0], ch) then Some(pipe[0]) else None
  {
    if |pipe| > 1 {
      var n := |pipe| - 1;
      LastOfPop(pipe[..n], ch);
      assert pipe[1..][..n - 1] == pipe[..n][1..];
      assert pipe[1..][n - 1] == pipe[n];
    } else {
      assert pipe[..0] == [];
    }
  }

  lemma {:induction false} LastOfIsThere(pipe: seq<Cmd>, ch: Channel)
    ensures LastOf(pipe, ch).Some? ==> LastOf(pipe, ch).value in pipe && About(LastOf(pipe, ch).value, ch)
  {
    if pipe != [] {
      LastOfIsThere(pipe[..|pipe| - 1], ch);
    }
  }

  function Messages(replies: seq<Reply>): seq<Ulid> {
    if replies == [] then []
    else (if replies[0].Msg? then [replies[0].m] else []) + Messages(replies[1..])
  }

  lemma {:induction false} MessagesPush(replies: seq<Reply>, r: Reply)
    ensures Messages(replies + [r]) == Messages(replies) + if r.Msg? then [r.m] else []
  {
    var more := replies + [r];
    if replies == [] {
      assert more[1..] == [];
    } else {
      assert more[1..] == replies[1..] + [r];
      MessagesPush(replies[1..], r);
      assert Messages(more) == (if replies[0].Msg? then [replies[0].m] else []) + Messages(more[1..]);
    }
  }
}
