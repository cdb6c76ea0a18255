/** An acquired channel is subscribed, and the pipe always ends in what the counts say. */
module BrokerSafety {
  import opened Common
  import opened BrokerProtocol
  import opened Runs

  function Carriers(ops: map<Ulid, Op>, ch: Channel): set<Ulid> {
    set o | o in ops && Carries(ops[o], ch)
  }

  // ---- the invariant ----

  ghost predicate OneInside(ops: map<Ulid, Op>) {
    forall o, p :: o in ops && p in ops && UnderLock(ops[o]) && UnderLock(ops[p]) ==> o == p
  }

  ghost predicate Counting(refs: map<Channel, nat>, ops: map<Ulid, Op>) {
    && (forall ch :: ch in refs ==> refs[ch] >= 1)
    && (forall ch {:trigger Count(refs, ch)} {:trigger Carriers(ops, ch)} :: Count(refs, ch) == |Carriers(ops, ch)|)
  }

  /** A command with a number. */
  predicate HasNumber(cmd: Cmd) {
    cmd.Sub? || cmd.Ping?
  }

  /** Numbers grow along the replies and then the pipe, above what is acknowledged and up to what was handed out. */
  ghost predicate Ordered(acked: nat, replies: seq<Reply>, pipe: seq<Cmd>, top: nat) {
    && acked <= top
    && (forall i :: 0 <= i < |replies| && replies[i].Pong? ==> acked < replies[i].n <= top)
    && (forall i, j :: 0 <= i < j < |replies| && replies[i].Pong? && replies[j].Pong? ==> replies[i].n < replies[j].n)
    && (forall i :: 0 <= i < |pipe| && HasNumber(pipe[i]) ==> acked < pipe[i].n <= top)
    && (forall i, j :: 0 <= i < |replies| && 0 <= j < |pipe| && replies[i].Pong? && HasNumber(pipe[j]) ==> replies[i].n < pipe[j].n)
    && (forall i, j :: 0 <= i < j < |pipe| && HasNumber(pipe[i]) && HasNumber(pipe[j]) ==> pipe[i].n < pipe[j].n)
  }

  /** A first Acquire that has not sent its SUBSCRIBE, a last Release that has not sent its UNSUBSCRIBE. */
  ghost predicate Unsent(ops: map<Ulid, Op>, op: Op) {
    exists o :: o in ops && ops[o] == op
  }

  ghost predicate PipeMatches(s: State) {
    forall ch {:trigger Replayed(s.live, s.pipe, ch)} ::
      Replayed(s.live, s.pipe, ch) <==> (ch in s.refs && !Unsent(s.ops, Counted(ch, true))) || Unsent(s.ops, Dropping(ch, true))
  }

  /** The SUBSCRIBE that counts carries the recorded number. */
  ghost predicate NumbersMatch(s: State) {
    forall ch {:trigger LastOf(s.pipe, ch)} :: ch in s.refs && LastOf(s.pipe, ch).Some? && LastOf(s.pipe, ch).value.Sub? ==>
      LastOf(s.pipe, ch).value.n == if ch in s.subscribedAt then s.subscribedAt[ch] else s.sequence
  }

  ghost predicate Recorded(s: State) {
    && (forall ch :: ch in s.subscribedAt ==> ch in s.refs)
    && (forall o :: o in s.ops ==> RecordedFor(s, s.ops[o]))
  }

  /** What an operation knows of the number of its channel. */
  ghost predicate RecordedFor(s: State, op: Op) {
    match op
    case Counted(ch, first) => ch in s.refs && (first <==> ch !in s.subscribedAt) && (first ==> s.refs[ch] == 1)
    case Sent(ch) => ch in s.refs && ch !in s.subscribedAt && s.refs[ch] == 1
    case Numbered(ch) => ch in s.subscribedAt
    case Asking(g, _) => g.Some? ==> g.value in s.subscribedAt && s.subscribedAt[g.value] <= s.sequence
    case Pinging(g, token, _) => g.Some? ==> g.value in s.subscribedAt && s.subscribedAt[g.value] < token
    case Waiting(g, token, _) => g.Some? ==> g.value in s.subscribedAt && s.subscribedAt[g.value] < token
    case Acquired(ch) => ch in s.subscribedAt && s.subscribedAt[ch] <= s.acked
    case Failed(ch) => ch in s.subscribedAt
    case Dropping(ch, last) => last ==> ch !in s.refs
    case Synced(_) => true
  }

  ghost predicate WokenAcked(s: State) {
    forall t :: t in s.woken ==> t <= s.acked
  }

  ghost predicate NumbersHandedOut(s: State) {
    forall ch :: ch in s.subscribedAt ==> s.subscribedAt[ch] <= s.sequence
  }

  ghost predicate Inv(s: State) {
    && OneInside(s.ops) && Counting(s.refs, s.ops)
    && Ordered(s.acked, s.replies, s.pipe, s.sequence) && TokenOnTop(s)
    && PipeMatches(s) && NumbersMatch(s) && Recorded(s) && WokenAcked(s) && NumbersHandedOut(s)
  }

  /** The heart of it: a number at or below the acknowledged one is out of the pipe. */
  lemma AckedIsProcessed(s: State, ch: Channel)
    requires Inv(s) && ch in s.subscribedAt && s.subscribedAt[ch] <= s.acked && !Unsent(s.ops, Counted(ch, true))
    ensures LastOf(s.pipe, ch) == None && ch in s.live
  {
    LastOfIsThere(s.pipe, ch);
    assert Replayed(s.live, s.pipe, ch) by { if Unsent(s.ops, Dropping(ch, true)) { } }
  }

  // ---- every step keeps it ----

  lemma OpSet(ops: map<Ulid, Op>, o: Ulid, op: Op, ch: Channel)
    ensures |Carriers(ops[o := op], ch)|
            == |Carriers(ops, ch)| - (if o in ops && Carries(ops[o], ch) then 1 else 0) + if Carries(op, ch) then 1 else 0
  {
    var rest := Carriers(ops, ch) - {o};
    if Carries(op, ch) {
      assert Carriers(ops[o := op], ch) == rest + {o};
    } else {
      assert Carriers(ops[o := op], ch) == rest;
    }
  }

  /** An operation is inside the write lock because it was, or because it just entered the free lock. */
  lemma InsideBefore(s: State, step: Step, o: Ulid)
    requires Legal(s, step) && o in Next(s, step).ops && UnderLock(Next(s, step).ops[o])
    ensures (o in s.ops && UnderLock(s.ops[o])) || (LockFree(s) && forall p :: p in Next(s, step).ops && p != o ==> p in s.ops && Next(s, step).ops[p] == s.ops[p])
  {
  }

  lemma StepKeepsOneInside(s: State, step: Step)
    requires OneInside(s.ops) && Legal(s, step)
    ensures OneInside(Next(s, step).ops)
  {
    var n := Next(s, step);
    forall o, p | o in n.ops && p in n.ops && UnderLock(n.ops[o]) && UnderLock(n.ops[p]) ensures o == p {
      InsideBefore(s, step, o);
      InsideBefore(s, step, p);
    }
  }

  /** Only the beginnings of Acquire and Release change who carries a channel. */
  lemma SameCarriers(s: State, step: Step, ch: Channel)
    requires Legal(s, step) && !step.AcquireBegin? && !step.ReleaseBegin?
    ensures Carriers(Next(s, step).ops, ch) == Carriers(s.ops, ch)
  {
    forall o ensures o in Carriers(Next(s, step).ops, ch) <==> o in Carriers(s.ops, ch) {
      SameCarrier(s, step, ch, o);
    }
  }

  lemma SameCarrier(s: State, step: Step, ch: Channel, o: Ulid)
    requires Legal(s, step) && !step.AcquireBegin? && !step.ReleaseBegin?
    ensures var n := Next(s, step); (o in n.ops && Carries(n.ops[o], ch)) <==> (o in s.ops && Carries(s.ops[o], ch))
  {
    if !(step.Process? || step.Publish? || step.Receive?) && step.o == o { CarriesOn(s, step, ch); }
  }

  /** An operation carries its channel from one step of its own to the next. */
  lemma CarriesOn(s: State, step: Step, ch: Channel)
    requires Legal(s, step) && !step.AcquireBegin? && !step.ReleaseBegin? && !(step.Process? || step.Publish? || step.Receive?)
    ensures var n := Next(s, step); (step.o in n.ops && Carries(n.ops[step.o], ch)) <==> (step.o in s.ops && Carries(s.ops[step.o], ch))
  {
  }

  lemma CountAt(s: State, step: Step, ch: Channel)
    requires Counting(s.refs, s.ops) && Legal(s, step)
    ensures Count(Next(s, step).refs, ch) == |Carriers(Next(s, step).ops, ch)|
  {
    assert Count(s.refs, ch) == |Carriers(s.ops, ch)|;
    if step.AcquireBegin? {
      OpSet(s.ops, step.o, Next(s, step).ops[step.o], ch);
    } else if step.ReleaseBegin? {
      OpSet(s.ops, step.o, Next(s, step).ops[step.o], ch);
      if s.ops[step.o].ch == ch { assert step.o in Carriers(s.ops, ch); }
    } else {
      SameCarriers(s, step, ch);
    }
  }

  lemma StepKeepsCounting(s: State, step: Step)
    requires Counting(s.refs, s.ops) && Legal(s, step)
    ensures Counting(Next(s, step).refs, Next(s, step).ops)
  {
    forall ch ensures Count(Next(s, step).refs, ch) == |Carriers(Next(s, step).ops, ch)| {
      CountAt(s, step, ch);
    }
  }

  // ---- numbers ----

  lemma PushCmd(acked: nat, replies: seq<Reply>, pipe: seq<Cmd>, top: nat, cmd: Cmd, top': nat)
    requires Ordered(acked, replies, pipe, top) && top <= top'
    requires HasNumber(cmd) ==> cmd.n == top' && (top < top' || IsNext(replies, pipe, acked, cmd.n))
    ensures Ordered(acked, replies, pipe + [cmd], top')
  {
  }

  /** Above everything on its way. */
  ghost predicate IsNext(replies: seq<Reply>, pipe: seq<Cmd>, acked: nat, n: nat) {
    && acked < n
    && (forall i :: 0 <= i < |replies| && replies[i].Pong? ==> replies[i].n < n)
    && (forall i :: 0 <= i < |pipe| && HasNumber(pipe[i]) ==> pipe[i].n < n)
  }

  lemma PopCmd(acked: nat, replies: seq<Reply>, pipe: seq<Cmd>, top: nat)
    requires Ordered(acked, replies, pipe, top) && pipe != []
    ensures Ordered(acked, replies, pipe[1..], top)
    ensures pipe[0].Ping? ==> Ordered(acked, replies + [Pong(pipe[0].n)], pipe[1..], top)
  {
  }

  lemma PopReply(acked: nat, replies: seq<Reply>, pipe: seq<Cmd>, top: nat)
    requires Ordered(acked, replies, pipe, top) && replies != []
    ensures Ordered(if replies[0].Pong? then replies[0].n else acked, replies[1..], pipe, top)
  {
  }

  lemma PushMsg(acked: nat, replies: seq<Reply>, pipe: seq<Cmd>, top: nat, m: Ulid)
    requires Ordered(acked, replies, pipe, top)
    ensures Ordered(acked, replies + [Msg(m)], pipe, top)
  {
  }

  /** A token just taken is above everything on its way until its PING is sent. */
  ghost predicate TokenOnTop(s: State) {
    forall o :: o in s.ops && s.ops[o].Pinging? ==> s.ops[o].token == s.sequence && IsNext(s.replies, s.pipe, s.acked, s.sequence)
  }

  lemma SendKeepsOrder(s: State, step: Step)
    requires Ordered(s.acked, s.replies, s.pipe, s.sequence) && TokenOnTop(s)
    requires Legal(s, step) && (step.SendSub? || step.SendPing? || step.ReleaseEnd?)
    ensures var n := Next(s, step); Ordered(n.acked, n.replies, n.pipe, n.sequence)
  {
    match step
    case SendSub(o) => if s.ops[o].first { PushCmd(s.acked, s.replies, s.pipe, s.sequence, Sub(s.ops[o].ch, s.sequence + 1), s.sequence + 1); }
    case SendPing(o) => PushCmd(s.acked, s.replies, s.pipe, s.sequence, Ping(s.ops[o].token), s.sequence);
    case ReleaseEnd(o) => if s.ops[o].last { PushCmd(s.acked, s.replies, s.pipe, s.sequence, Unsub(s.ops[o].ch), s.sequence); }
  }

  lemma ReceiveKeepsOrder(s: State)
    requires Ordered(s.acked, s.replies, s.pipe, s.sequence) && s.replies != []
    ensures var n := Received(s); Ordered(n.acked, n.replies, n.pipe, n.sequence)
  {
    PopReply(s.acked, s.replies, s.pipe, s.sequence);
  }

  lemma StepKeepsOrder(s: State, step: Step)
    requires Ordered(s.acked, s.replies, s.pipe, s.sequence) && TokenOnTop(s) && Legal(s, step)
    ensures var n := Next(s, step); Ordered(n.acked, n.replies, n.pipe, n.sequence)
  {
    if step.SendSub? || step.SendPing? || step.ReleaseEnd? {
      SendKeepsOrder(s, step);
    } else if step.Process? {
      PopCmd(s.acked, s.replies, s.pipe, s.sequence);
    } else if step.Publish? {
      PushMsg(s.acked, s.replies, s.pipe, s.sequence, step.m);
    } else if step.Receive? {
      ReceiveKeepsOrder(s);
    } else {
      OthersOnlyCount(s, step);
    }
  }

  lemma OthersOnlyCount(s: State, step: Step)
    requires Legal(s, step)
    requires !(step.SendSub? || step.SendPing? || step.ReleaseEnd? || step.Process? || step.Publish? || step.Receive?)
    ensures var n := Next(s, step);
            n.acked == s.acked && n.replies == s.replies && n.pipe == s.pipe && s.sequence <= n.sequence
  {
  }

  lemma StepKeepsToken(s: State, step: Step)
    requires OneInside(s.ops) && Ordered(s.acked, s.replies, s.pipe, s.sequence) && TokenOnTop(s) && Legal(s, step)
    ensures TokenOnTop(Next(s, step))
  {
    var n := Next(s, step);
    forall o | o in n.ops && n.ops[o].Pinging? ensures n.ops[o].token == n.sequence && IsNext(n.replies, n.pipe, n.acked, n.sequence) {
      TokenAt(s, step, o);
    }
  }

  lemma TokenAt(s: State, step: Step, o: Ulid)
    requires OneInside(s.ops) && Ordered(s.acked, s.replies, s.pipe, s.sequence) && TokenOnTop(s) && Legal(s, step)
    requires o in Next(s, step).ops && Next(s, step).ops[o].Pinging?
    ensures var n := Next(s, step); n.ops[o].token == n.sequence && IsNext(n.replies, n.pipe, n.acked, n.sequence)
  {
    if step != TakeToken(o) {
      OnlyOutsideMoves(s, step, o);
    }
  }

  /** While one operation is inside the write lock the others and Redis leave what it relies on alone. */
  lemma OnlyOutsideMoves(s: State, step: Step, o: Ulid)
    requires OneInside(s.ops) && Legal(s, step) && step != TakeToken(o)
    requires o in Next(s, step).ops && Next(s, step).ops[o].Pinging?
    ensures o in s.ops && s.ops[o] == Next(s, step).ops[o] && Next(s, step).sequence == s.sequence
    ensures step.Process? || step.Publish? || step.Receive? || (Next(s, step).pipe == s.pipe && Next(s, step).replies == s.replies && Next(s, step).acked == s.acked)
  {
  }

  // ---- what operations know ----

  lemma LoneCarrier(s: State, o: Ulid, p: Ulid, ch: Channel)
    requires Counting(s.refs, s.ops) && Count(s.refs, ch) <= 1
    requires o in s.ops && Carries(s.ops[o], ch) && p in s.ops && Carries(s.ops[p], ch)
    ensures o == p
  {
    assert Count(s.refs, ch) == |Carriers(s.ops, ch)|;
    if o != p {
      assert {o, p} <= Carriers(s.ops, ch);
      SubsetSize({o, p}, Carriers(s.ops, ch));
    }
  }

  lemma CountedIsRecorded(s: State, ch: Channel)
    requires Counting(s.refs, s.ops) && Recorded(s) && LockFree(s)
    ensures ch in s.refs <==> ch in s.subscribedAt
  {
    if ch in s.refs {
      assert Count(s.refs, ch) == |Carriers(s.ops, ch)|;
      var o :| o in Carriers(s.ops, ch);
      assert RecordedFor(s, s.ops[o]);
    }
  }

  ghost predicate Known(s: State) {
    OneInside(s.ops) && Counting(s.refs, s.ops) && Recorded(s) && WokenAcked(s) && NumbersHandedOut(s)
  }

  /** The steps that change what is recorded about a channel. */
  lemma RecordChanges(s: State, step: Step, x: Ulid)
    requires Known(s) && Legal(s, step) && x in Next(s, step).ops && (step.AcquireBegin? || step.Number? || step.ReleaseBegin?)
    ensures RecordedFor(Next(s, step), Next(s, step).ops[x])
  {
    if x in s.ops { assert RecordedFor(s, s.ops[x]); }
    if step.AcquireBegin? {
      CountedIsRecorded(s, step.ch);
    } else {
      assert RecordedFor(s, s.ops[step.o]);
      var ch := s.ops[step.o].ch;
      if x != step.o && Carries(s.ops[x], ch) && Count(s.refs, ch) <= 1 { LoneCarrier(s, step.o, x, ch); }
    }
  }

  /** The steps by which an operation moves on. */
  lemma RecordMoves(s: State, step: Step, x: Ulid)
    requires Known(s) && Legal(s, step) && x in Next(s, step).ops && !(step.AcquireBegin? || step.Number? || step.ReleaseBegin?)
    requires x !in s.ops || s.ops[x] != Next(s, step).ops[x]
    ensures RecordedFor(Next(s, step), Next(s, step).ops[x])
  {
    if x in s.ops { assert RecordedFor(s, s.ops[x]); }
  }

  lemma RecordStays(s: State, step: Step)
    requires Legal(s, step) && !(step.AcquireBegin? || step.Number? || step.ReleaseBegin?)
    ensures var n := Next(s, step); n.refs == s.refs && n.subscribedAt == s.subscribedAt && s.sequence <= n.sequence && s.acked <= n.acked
  {
  }

  lemma RecordedAt(s: State, step: Step, x: Ulid)
    requires Known(s) && Legal(s, step) && x in Next(s, step).ops
    ensures RecordedFor(Next(s, step), Next(s, step).ops[x])
  {
    if step.AcquireBegin? || step.Number? || step.ReleaseBegin? {
      RecordChanges(s, step, x);
    } else if x in s.ops && s.ops[x] == Next(s, step).ops[x] {
      RecordStays(s, step);
      assert RecordedFor(s, s.ops[x]);
    } else {
      RecordMoves(s, step, x);
    }
  }

  lemma StepKeepsRecorded(s: State, step: Step)
    requires Known(s) && Legal(s, step)
    ensures var n := Next(s, step); Recorded(n) && WokenAcked(n) && NumbersHandedOut(n)
  {
    var n := Next(s, step);
    forall x | x in n.ops ensures RecordedFor(n, n.ops[x]) {
      RecordedAt(s, step, x);
    }
    NumbersStayKnown(s, step);
  }

  lemma NumbersStayKnown(s: State, step: Step)
    requires Known(s) && Legal(s, step)
    ensures WokenAcked(Next(s, step)) && NumbersHandedOut(Next(s, step))
  {
    if step.Number? { assert RecordedFor(s, s.ops[step.o]); }
  }

  // ---- the pipe ----

  /** What the pipe must come to for a channel. */
  ghost predicate Wanted(s: State, ch: Channel) {
    (ch in s.refs && !Unsent(s.ops, Counted(ch, true))) || Unsent(s.ops, Dropping(ch, true))
  }

  /** Sends keep the pipe in step with the counts. */
  lemma SendMatches(s: State, step: Step, ch: Channel)
    requires Known(s) && PipeMatches(s) && Legal(s, step) && (step.SendSub? || step.ReleaseEnd?)
    ensures Replayed(Next(s, step).live, Next(s, step).pipe, ch) <==> Wanted(Next(s, step), ch)
  {
    var o := step.o;
    var op := s.ops[o];
    assert RecordedFor(s, op) && (Replayed(s.live, s.pipe, ch) <==> Wanted(s, ch));
    OnlyOneUnsent(s, o, ch);
    if step.SendSub? {
      LastOfPush(s.pipe, Sub(op.ch, s.sequence + 1), ch);
      OnlyOneUnsent(Set(s, o, if op.first then Sent(op.ch) else Numbered(op.ch)), o, ch);
    } else {
      LastOfPush(s.pipe, Unsub(op.ch), ch);
      OnlyOneUnsent(s.(ops := s.ops - {o}), o, ch);
    }
  }

  /** The operation inside the lock is the only one that can have something unsent. */
  lemma OnlyOneUnsent(s: State, o: Ulid, ch: Channel)
    requires forall p :: p in s.ops && UnderLock(s.ops[p]) ==> p == o
    ensures Unsent(s.ops, Counted(ch, true)) <==> o in s.ops && s.ops[o] == Counted(ch, true)
    ensures Unsent(s.ops, Dropping(ch, true)) <==> o in s.ops && s.ops[o] == Dropping(ch, true)
  {
  }

  lemma BeginMatches(s: State, step: Step, ch: Channel)
    requires Known(s) && PipeMatches(s) && Legal(s, step) && (step.AcquireBegin? || step.ReleaseBegin?)
    ensures Replayed(Next(s, step).live, Next(s, step).pipe, ch) <==> Wanted(Next(s, step), ch)
  {
    assert Replayed(s.live, s.pipe, ch) <==> Wanted(s, ch);
    OnlyOneUnsent(s, step.o, ch);
    OnlyOneUnsent(Next(s, step), step.o, ch);
  }

  lemma ProcessMatches(s: State, ch: Channel)
    requires s.pipe != []
    ensures Replayed(Processed(s).live, Processed(s).pipe, ch) == Replayed(s.live, s.pipe, ch)
  {
    LastOfPop(s.pipe, ch);
  }

  lemma SameUnsent(s: State, step: Step, op: Op)
    requires Legal(s, step) && !(step.AcquireBegin? || step.ReleaseBegin? || step.SendSub? || step.ReleaseEnd?)
    requires (op.Counted? && op.first) || (op.Dropping? && op.last)
    ensures Unsent(Next(s, step).ops, op) <==> Unsent(s.ops, op)
  {
    if o :| o in s.ops && s.ops[o] == op {
      assert o in Next(s, step).ops && Next(s, step).ops[o] == op;
    }
  }

  lemma OtherMatches(s: State, step: Step, ch: Channel)
    requires Legal(s, step) && !(step.AcquireBegin? || step.ReleaseBegin? || step.SendSub? || step.ReleaseEnd? || step.Process?)
    ensures Wanted(Next(s, step), ch) <==> Wanted(s, ch)
    ensures Replayed(Next(s, step).live, Next(s, step).pipe, ch) == Replayed(s.live, s.pipe, ch)
  {
    SameUnsent(s, step, Counted(ch, true));
    SameUnsent(s, step, Dropping(ch, true));
    if step.SendPing? { LastOfPush(s.pipe, Ping(s.ops[step.o].token), ch); }
  }

  lemma StepKeepsPipe(s: State, step: Step)
    requires Inv(s) && Legal(s, step)
    ensures PipeMatches(Next(s, step))
  {
    var n := Next(s, step);
    forall ch ensures Replayed(n.live, n.pipe, ch) <==> Wanted(n, ch) {
      assert Replayed(s.live, s.pipe, ch) <==> Wanted(s, ch);
      if step.SendSub? || step.ReleaseEnd? {
        SendMatches(s, step, ch);
      } else if step.AcquireBegin? || step.ReleaseBegin? {
        BeginMatches(s, step, ch);
      } else if step.Process? {
        ProcessMatches(s, ch);
      } else {
        OtherMatches(s, step, ch);
      }
    }
  }

  /** A counted channel without a number is being subscribed right now. */
  lemma Unrecorded(s: State, ch: Channel)
    requires Known(s) && ch in s.refs && ch !in s.subscribedAt
    ensures Unsent(s.ops, Counted(ch, true)) || Unsent(s.ops, Sent(ch))
  {
    assert Count(s.refs, ch) == |Carriers(s.ops, ch)|;
    var o :| o in Carriers(s.ops, ch);
    assert RecordedFor(s, s.ops[o]);
  }

  lemma NumberAfterSend(s: State, step: Step, ch: Channel)
    requires Known(s) && NumbersMatch(s) && Legal(s, step) && ch in Next(s, step).refs
    requires step.SendSub? || step.SendPing? || step.ReleaseEnd?
    requires LastOf(Next(s, step).pipe, ch).Some? && LastOf(Next(s, step).pipe, ch).value.Sub?
    ensures var n := Next(s, step); LastOf(n.pipe, ch).value.n == if ch in n.subscribedAt then n.subscribedAt[ch] else n.sequence
  {
    assert RecordedFor(s, s.ops[step.o]);
    if ch !in s.subscribedAt { Unrecorded(s, ch); }
    if Next(s, step).pipe != s.pipe { LastOfPush(s.pipe, Next(s, step).pipe[|s.pipe|], ch); }
  }

  lemma NumberElsewhere(s: State, step: Step, ch: Channel)
    requires Known(s) && PipeMatches(s) && NumbersMatch(s) && Legal(s, step) && ch in Next(s, step).refs
    requires !(step.SendSub? || step.SendPing? || step.ReleaseEnd? || step.Process?)
    requires LastOf(s.pipe, ch).Some? && LastOf(s.pipe, ch).value.Sub?
    ensures var n := Next(s, step); LastOf(s.pipe, ch).value.n == if ch in n.subscribedAt then n.subscribedAt[ch] else n.sequence
  {
    assert Replayed(s.live, s.pipe, ch) <==> Wanted(s, ch);
    if ch in s.refs && ch !in s.subscribedAt { Unrecorded(s, ch); }
  }

  lemma StepKeepsNumbers(s: State, step: Step)
    requires Known(s) && PipeMatches(s) && NumbersMatch(s) && Legal(s, step)
    ensures NumbersMatch(Next(s, step))
  {
    var n := Next(s, step);
    forall ch | ch in n.refs && LastOf(n.pipe, ch).Some? && LastOf(n.pipe, ch).value.Sub?
      ensures LastOf(n.pipe, ch).value.n == if ch in n.subscribedAt then n.subscribedAt[ch] else n.sequence
    {
      if step.SendSub? || step.SendPing? || step.ReleaseEnd? {
        NumberAfterSend(s, step, ch);
      } else if step.Process? {
        LastOfPop(s.pipe, ch);
      } else {
        NumberElsewhere(s, step, ch);
      }
    }
  }

  lemma StepKeepsInv(s: State, step: Step)
    requires Inv(s) && Legal(s, step)
    ensures Inv(Next(s, step))
  {
    StepKeepsOneInside(s, step);
    StepKeepsCounting(s, step);
    StepKeepsOrder(s, step);
    StepKeepsToken(s, step);
    StepKeepsPipe(s, step);
    StepKeepsNumbers(s, step);
    StepKeepsRecorded(s, step);
  }

  lemma {:induction false} RunKeepsInv(states: seq<State>, steps: seq<Step>, i: nat)
    requires IsRun(states, steps) && i <= |steps|
    ensures Inv(states[i])
  {
    if i == 0 {
      assert forall ch :: Carriers(INITIAL.ops, ch) == {};
    } else {
      RunKeepsInv(states, steps, i - 1);
      assert StepAt(IsStep, states, steps, i - 1);
      StepKeepsInv(states[i - 1], steps[i - 1]);
    }
  }

  // ---- the theorems ----

  /** In every run, from the moment Acquire returns until the matching Release begins, Redis has processed the SUBSCRIBE and
      keeps the channel in its subscription set, and nothing on its way will take it out. */
  lemma AcquiredIsSubscribed(states: seq<State>, steps: seq<Step>, o: Ulid)
    requires IsRun(states, steps) && o in states[|steps|].ops && states[|steps|].ops[o].Acquired?
    ensures var s := states[|steps|];
            s.ops[o].ch in s.live && forall i :: 0 <= i < |s.pipe| ==> !About(s.pipe[i], s.ops[o].ch)
  {
    RunKeepsInv(states, steps, |steps|);
    AcquiredMeans(states[|steps|], o);
  }

  lemma AcquiredMeans(s: State, o: Ulid)
    requires Inv(s) && o in s.ops && s.ops[o].Acquired?
    ensures s.ops[o].ch in s.live && forall i :: 0 <= i < |s.pipe| ==> !About(s.pipe[i], s.ops[o].ch)
  {
    assert RecordedFor(s, s.ops[o]);
    var ch := s.ops[o].ch;
    forall p | p in s.ops ensures s.ops[p] != Counted(ch, true) {
      assert RecordedFor(s, s.ops[p]);
    }
    AckedIsProcessed(s, ch);
    NothingAbout(s.pipe, ch);
  }

  lemma {:induction false} NothingAbout(pipe: seq<Cmd>, ch: Channel)
    requires LastOf(pipe, ch) == None
    ensures forall i :: 0 <= i < |pipe| ==> !About(pipe[i], ch)
  {
    if pipe != [] {
      NothingAbout(pipe[..|pipe| - 1], ch);
    }
  }

  /** At all times, what is sent and unprocessed, and then what the operation inside the lock is about to send, leaves exactly
      the channels somebody counts. */
  lemma ReplayGivesTheCounts(states: seq<State>, steps: seq<Step>, ch: Channel)
    requires IsRun(states, steps)
    ensures var s := states[|steps|];
            && (Replayed(s.live, s.pipe, ch)
                <==> (ch in s.refs && !Unsent(s.ops, Counted(ch, true))) || Unsent(s.ops, Dropping(ch, true)))
            && (ch in s.refs ==> s.refs[ch] >= 1)
            && Count(s.refs, ch) == |Carriers(s.ops, ch)|
            && (s.pipe == [] && LockFree(s) ==> (ch in s.live <==> Carriers(s.ops, ch) != {}))
  {
    var s := states[|steps|];
    RunKeepsInv(states, steps, |steps|);
    assert Replayed(s.live, s.pipe, ch) <==> Wanted(s, ch);
    assert Count(s.refs, ch) == |Carriers(s.ops, ch)|;
  }
}
