/** The Broker's fields, one method per region it runs under its mutex.

    Each region is proved to be the step of module BrokerProtocol that it stands for: `s` is a state that shows the same
    fields, and afterwards the next state does. */
module Broker {
  import opened Common
  import opened BrokerProtocol

  class Broker {
    var refs: map<Channel, nat>
    var subscribedAt: map<Channel, nat>
    var sequence: nat
    var acked: nat
    var waiters: set<nat>
    var closed: bool

    ghost predicate Shows(s: State)
      reads this
    {
      refs == s.refs && subscribedAt == s.subscribedAt && sequence == s.sequence && acked == s.acked && waiters == s.waiters
    }

    constructor ()
      ensures Shows(INITIAL) && !closed
    {
      refs, subscribedAt, sequence, acked, waiters, closed := map[], map[], 0, 0, {}, false;
    }

    /** Acquire, first region. A closed Broker counts nothing. */
    method AcquireRegion(ch: Channel, ghost s: State, ghost o: Ulid) returns (ok: bool, first: bool)
      requires Shows(s) && Legal(s, AcquireBegin(o, ch))
      modifies this
      ensures ok == !old(closed) && closed == old(closed)
      ensures !ok ==> Shows(s)
      ensures ok ==> Shows(Next(s, AcquireBegin(o, ch))) && Next(s, AcquireBegin(o, ch)).ops[o] == Counted(ch, first)
    {
      ok, first := !closed, false;
      if ok {
        refs := refs[ch := Count(refs, ch) + 1];
        first := refs[ch] == 1;
      }
    }

    /** The sequence number of a SUBSCRIBE just sent, taken under the write lock. */
    method TakeNumber(ghost s: State, ghost o: Ulid)
      requires Shows(s) && Legal(s, SendSub(o)) && s.ops[o].first
      modifies this`sequence
      ensures Shows(Next(s, SendSub(o))) && Next(s, SendSub(o)).pipe == s.pipe + [Sub(s.ops[o].ch, sequence)]
    {
      sequence := sequence + 1;
    }

    /** The number is recorded for its channel. */
    method RecordRegion(ch: Channel, ghost s: State, ghost o: Ulid)
      requires Shows(s) && Legal(s, Number(o)) && s.ops[o].ch == ch
      modifies this`subscribedAt
      ensures Shows(Next(s, Number(o)))
    {
      subscribedAt := subscribedAt[ch := sequence];
    }

    /** Is the channel's SUBSCRIBE known to be processed? */
    method ConfirmedRegion(ch: Channel, ghost s: State, ghost o: Ulid) returns (confirmed: bool)
      requires Shows(s) && Legal(s, Check(o)) && s.ops[o].ch == ch
      ensures Shows(Next(s, Check(o)))
      ensures Next(s, Check(o)).ops[o] == if confirmed then Acquired(ch) else Asking(Some(ch), 0)
    {
      confirmed := Count(subscribedAt, ch) <= acked;
    }

    /** pingAndWait, first region: a token nobody had, and a waiter for it. */
    method TokenRegion(ghost s: State, ghost o: Ulid) returns (token: Option<nat>)
      requires Shows(s) && Legal(s, TakeToken(o))
      modifies this
      ensures token.None? <==> old(closed)
      ensures closed == old(closed) && (token.None? ==> Shows(s))
      ensures token.Some? ==> Shows(Next(s, TakeToken(o))) && Next(s, TakeToken(o)).ops[o].token == token.value
    {
      token := None;
      if !closed {
        sequence := sequence + 1;
        waiters := waiters + {sequence};
        token := Some(sequence);
      }
    }

    /** pingAndWait after a timeout: the waiter goes. */
    method ForgetRegion(token: nat, ghost s: State, ghost o: Ulid)
      requires Shows(s) && Legal(s, GiveUp(o)) && s.ops[o].token == token
      modifies this`waiters
      ensures Shows(Next(s, GiveUp(o)))
    {
      waiters := waiters - {token};
    }

    /** Release, its region: whether an UNSUBSCRIBE is due. */
    method ReleaseRegion(ch: Channel, ghost s: State, ghost o: Ulid) returns (unsubscribe: bool)
      requires Shows(s) && Legal(s, ReleaseBegin(o)) && s.ops[o].ch == ch
      requires Count(s.refs, ch) >= 1
      modifies this`refs, this`subscribedAt
      ensures Shows(Next(s, ReleaseBegin(o)))
      ensures unsubscribe == (Next(s, ReleaseBegin(o)).ops[o] == Dropping(ch, true) && !closed)
    {
      var left := Count(refs, ch) - 1;
      if left <= 0 {
        refs := refs - {ch};
        subscribedAt := subscribedAt - {ch};
      } else {
        refs := refs[ch := left];
      }
      unsubscribe := left <= 0 && !closed;
    }

    /** pong: everybody waiting for this number or an earlier one wakes up. A late PONG lowers nothing. */
    method Pong(n: nat, ghost s: State) returns (woken: set<nat>)
      requires Shows(s) && s.replies != [] && s.replies[0] == Reply.Pong(n)
      modifies this`acked, this`waiters
      ensures Shows(Received(s)) && Received(s).woken == s.woken + woken
    {
      if n > acked {
        acked := n;
      }
      woken := {};
      var todo := waiters;
      ghost var was := waiters;
      while todo != {}
        invariant acked == Received(s).acked && todo <= was && waiters == was - woken
        invariant forall t :: t in woken <==> t in was - todo && t <= acked
        decreases |todo|
      {
        var t :| t in todo;
        todo := todo - {t};
        if t <= acked {
          woken := woken + {t};
          waiters := waiters - {t};
        }
      }
      assert woken == set t | t in s.waiters && t <= acked;
    }

    /** resubscribed and close: nobody is left waiting; all of them learn the error. */
    method FailAll(closing: bool) returns (failed: set<nat>)
      modifies this`waiters, this`closed
      ensures closed == (old(closed) || closing)
      ensures if closing && old(closed) then failed == {} && waiters == old(waiters) else failed == old(waiters) && waiters == {}
    {
      failed := {};
      if closing && closed { return; }
      closed := closed || closing;
      ghost var was := waiters;
      while waiters != {}
        invariant closed == (old(closed) || closing)
        invariant waiters !! failed && waiters + failed == was
        decreases |waiters|
      {
        var t :| t in waiters;
        waiters := waiters - {t};
        failed := failed + {t};
      }
    }
  }
}
