/** Entering and ending a huddle: Postgres row locks against Redis membership, step by step.

    A transaction of internal/chat/huddle.go takes several steps, and steps of different transactions, undo and Clear calls
    and huddle scripts interleave freely. A row is locked while some transaction works on its huddle. */
module HuddleProtocol {
  import opened Common
  import M = HuddleModel
  import HuddleRuns
  import opened Runs

  datatype Phase = Active | Ended | Deleted

  datatype Tx =
    | Joining(p: M.Participant, created: bool, wrote: bool)
    | Ending(ending: Ulid, sawNobody: bool)
    | Closing(closing: Ulid)

  /** `rows` is what is committed; a huddle being started has no row yet. `undos` are Remove calls owed by failed joins,
      `clears` and `closings` the Clear calls owed after an empty huddle ended and after an archive or delete, and `looks` the
      checks owed after removals and evictions whether the huddle is over. `strays` are participations whose join wrote them and
      was told that it had not. */
  datatype State = State(redis: M.State, rows: map<Ulid, Phase>, txs: map<Ulid, Tx>,
                         undos: set<(Ulid, Ulid)>, clears: set<Ulid>, closings: set<Ulid>, looks: multiset<Ulid>,
                         strays: set<(Ulid, Ulid)>)

  const INITIAL := State(M.EMPTY, map[], map[], {}, {}, {}, multiset{}, {})

  /** Losing means that the program is told of an error: a script has run and its result is not known, or a check is given up. */
  datatype Step =
    | BeginJoin(t: Ulid, p: M.Participant)
    | StartJoin(t: Ulid, p: M.Participant)
    | WriteJoin(t: Ulid, deadline: int, limit: int, status: M.Status)
    | LoseJoin(t: Ulid, deadline: int, limit: int, status: M.Status)
    | CommitJoin(t: Ulid)
    | FailJoin(t: Ulid, landed: bool)
    | Undo(key: (Ulid, Ulid))
    | SkipLook(huddle: Ulid)
    | LoseLook(huddle: Ulid)
    | BeginEnd(t: Ulid, huddle: Ulid)
    | Look(t: Ulid)
    | CommitEnd(t: Ulid)
    | BeginClose(t: Ulid, huddle: Ulid)
    | CommitClose(t: Ulid, phase: Phase)
    | Rollback(t: Ulid)
    | DoClear(huddle: Ulid, order: seq<Ulid>)
    | Script(op: M.Op)
    | LoseScript(op: M.Op)

  function HuddleOf(tx: Tx): Ulid {
    match tx
    case Joining(p, _, _) => p.huddle
    case Ending(h, _) => h
    case Closing(h) => h
  }

  ghost predicate Unlocked(s: State, huddle: Ulid) {
    forall t :: t in s.txs ==> HuddleOf(s.txs[t]) != huddle
  }

  predicate IsActive(s: State, huddle: Ulid) {
    huddle in s.rows && s.rows[huddle] == Active
  }

  /** A row that will never be entered again. */
  predicate Over(s: State, huddle: Ulid) {
    huddle in s.rows && s.rows[huddle] != Active
  }

  ghost predicate Legal(s: State, step: Step) {
    match step
    case BeginJoin(t, p) => t !in s.txs && IsActive(s, p.huddle) && Unlocked(s, p.huddle)
    case StartJoin(t, p) => t !in s.txs && p.huddle !in s.rows && Unlocked(s, p.huddle)
    case WriteJoin(t, _, _, _) =>
      t in s.txs && s.txs[t].Joining? && !s.txs[t].wrote && M.NewSeat(s.redis, s.txs[t].p)
    case LoseJoin(t, _, _, _) =>
      t in s.txs && s.txs[t].Joining? && !s.txs[t].wrote && M.NewSeat(s.redis, s.txs[t].p)
    case CommitJoin(t) => t in s.txs && s.txs[t].Joining? && s.txs[t].wrote
    case FailJoin(t, landed) => t in s.txs && s.txs[t].Joining? && (landed ==> s.txs[t].wrote)
    case Undo(key) => key in s.undos
    case SkipLook(h) => h in s.looks && !IsActive(s, h)
    case LoseLook(h) => h in s.looks
    case BeginEnd(t, h) => t !in s.txs && h in s.looks && IsActive(s, h) && Unlocked(s, h)
    case Look(t) => t in s.txs && s.txs[t].Ending? && !s.txs[t].sawNobody
    case CommitEnd(t) => t in s.txs && s.txs[t].Ending? && s.txs[t].sawNobody
    case BeginClose(t, h) => t !in s.txs && IsActive(s, h) && Unlocked(s, h)
    case CommitClose(t, phase) => t in s.txs && s.txs[t].Closing? && phase != Active
    case Rollback(t) => t in s.txs && !s.txs[t].Joining?
    case DoClear(h, order) => h in s.clears + s.closings && M.Legal(s.redis, M.DoClear(h, order))
    case Script(op) => !op.DoJoin? && !op.DoClear? && M.Legal(s.redis, op)
    case LoseScript(op) => !op.DoJoin? && !op.DoClear? && M.Legal(s.redis, op)
  }

  ghost function Next(s: State, step: Step): State
    requires Legal(s, step)
  {
    match step
    case BeginJoin(t, p) => s.(txs := s.txs[t := Joining(p, false, false)])
    case StartJoin(t, p) => s.(txs := s.txs[t := Joining(p, true, false)])
    case WriteJoin(t, deadline, limit, status) =>
      var tx := s.txs[t];
      var joined := M.Join(s.redis, tx.p, deadline, limit, status);
      if joined.1.Full? then s.(txs := s.txs - {t})
      else s.(redis := joined.0, txs := s.txs[t := tx.(wrote := true)], looks := s.looks + multiset(LeftBy(s.redis, tx.p)))
    case LoseJoin(t, deadline, limit, status) =>
      var p := s.txs[t].p;
      var joined := M.Join(s.redis, p, deadline, limit, status);
      if joined.1.Full? then s.(txs := s.txs - {t})
      else s.(redis := joined.0, txs := s.txs - {t}, strays := s.strays + {(p.huddle, p.id)})
    case CommitJoin(t) => s.(rows := s.rows[s.txs[t].p.huddle := Active], txs := s.txs - {t})
    case FailJoin(t, landed) =>
      var tx := s.txs[t];
      s.(rows := if landed then s.rows[tx.p.huddle := Active] else s.rows,
         txs := s.txs - {t},
         undos := if tx.wrote then s.undos + {(tx.p.huddle, tx.p.id)} else s.undos)
    case Undo(key) => s.(redis := M.Remove(s.redis, key.0, key.1), undos := s.undos - {key})
    case SkipLook(h) => s.(looks := s.looks - multiset{h})
    case LoseLook(h) => s.(looks := s.looks - multiset{h})
    case BeginEnd(t, h) => s.(txs := s.txs[t := Ending(h, false)], looks := s.looks - multiset{h})
    case Look(t) =>
      var h := s.txs[t].ending;
      if M.Occupants(s.redis, h) == {} then s.(txs := s.txs[t := Ending(h, true)]) else s.(txs := s.txs - {t})
    case CommitEnd(t) =>
      var h := s.txs[t].ending;
      s.(rows := s.rows[h := Ended], txs := s.txs - {t}, clears := s.clears + {h})
    case BeginClose(t, h) => s.(txs := s.txs[t := Closing(h)])
    case CommitClose(t, phase) =>
      var h := s.txs[t].closing;
      s.(rows := s.rows[h := phase], txs := s.txs - {t}, closings := s.closings + {h})
    case Rollback(t) => s.(txs := s.txs - {t})
    case DoClear(h, order) =>
      s.(redis := M.Clear(s.redis, h, order), clears := s.clears - {h}, closings := s.closings - {h})
    case Script(op) =>
      var after := M.Apply(s.redis, op);
      s.(redis := after, looks := s.looks + multiset(Bereft(s.redis, after)))
    case LoseScript(op) => s.(redis := M.Apply(s.redis, op))
  }

  /** The huddle that a join takes its user out of. */
  function LeftBy(s: M.State, p: M.Participant): set<Ulid> {
    if p.user in s.seats then {s.seats[p.user].who.huddle} else {}
  }

  /** The huddles somebody was removed from. */
  function Bereft(s: M.State, t: M.State): set<Ulid> {
    set u | u in s.seats && u !in t.seats :: s.seats[u].who.huddle
  }

  ghost predicate IsStep(s: State, step: Step, n: State) {
    Legal(s, step) && n == Next(s, step)
  }

  ghost predicate IsRun(states: seq<State>, steps: seq<Step>) {
    IsPath(IsStep, states, steps) && states[0] == INITIAL
  }

  // ---- the invariant ----

  ghost predicate LocksHeld(s: State) {
    && (forall t, x {:trigger s.txs[t], s.txs[x]} :: t in s.txs && x in s.txs && HuddleOf(s.txs[t]) == HuddleOf(s.txs[x]) ==> t == x)
    && forall t :: t in s.txs ==>
         if s.txs[t].Joining? && s.txs[t].created then HuddleOf(s.txs[t]) !in s.rows else IsActive(s, HuddleOf(s.txs[t]))
  }

  ghost predicate EmptySeen(s: State) {
    forall t :: t in s.txs && s.txs[t].Ending? && s.txs[t].sawNobody ==> M.Occupants(s.redis, s.txs[t].ending) == {}
  }

  /** The property itself: an ended huddle is empty unless an archive or delete still owes its Clear. */
  ghost predicate EndedEmpty(s: State) {
    forall h {:trigger Over(s, h)} :: Over(s, h) && h !in s.closings ==> M.Occupants(s.redis, h) == {}
  }

  ghost predicate ClearsOver(s: State) {
    (forall h :: h in s.clears ==> Over(s, h)) && forall h :: h in s.closings ==> Over(s, h)
  }

  /** Someone in a huddle without a committed row: its start is in flight, or the undo of a failed start is owed, or the start
      does not know that it wrote. */
  ghost predicate Pending(s: State, who: M.Participant) {
    Excused(s, who) || exists t :: t in s.txs && Wrote(s.txs[t], who)
  }

  predicate Excused(s: State, who: M.Participant) {
    (who.huddle, who.id) in s.undos || (who.huddle, who.id) in s.strays
  }

  predicate Wrote(tx: Tx, who: M.Participant) {
    tx.Joining? && tx.created && tx.wrote && M.SameSeat(tx.p, who)
  }

  ghost predicate SeatsAccounted(s: State) {
    forall u {:trigger s.redis.seats[u]} :: u in s.redis.seats && s.redis.seats[u].who.huddle !in s.rows ==> Pending(s, s.redis.seats[u].who)
  }

  ghost predicate Inv(s: State) {
    M.Valid(s.redis) && LocksHeld(s) && EmptySeen(s) && EndedEmpty(s) && ClearsOver(s) && SeatsAccounted(s)
  }

  // ---- Redis only gains people by a join ----

  /** No huddle gains a participation. */
  ghost predicate OnlyLeaves(s: M.State, t: M.State) {
    forall u :: u in t.seats ==> u in s.seats && M.SameSeat(s.seats[u].who, t.seats[u].who)
  }

  lemma ScriptsOnlyRemove(s: M.State, op: M.Op)
    requires M.Valid(s) && M.Legal(s, op) && !op.DoJoin?
    ensures M.Valid(M.Apply(s, op)) && OnlyLeaves(s, M.Apply(s, op))
  {
    HuddleRuns.ApplyKeepsValid(s, op);
    match op
    case DoSweep(_, order) => HuddleRuns.VacateAllKeepsValid(s, order);
    case DoClear(huddle, order) => HuddleRuns.ClearKeepsValid(s, huddle, order);
    case DoRemove(huddle, id) =>
      if M.Holders(s, huddle, id) != {} {
        var u :| u in M.Holders(s, huddle, id) && M.Apply(s, op) == M.Vacate(s, u);
      }
    case DoSetMuted(huddle, id, muted) =>
      if M.Holders(s, huddle, id) != {} {
        var u :| u in M.Holders(s, huddle, id) && M.Apply(s, op) == M.Rewrite(s, u, s.seats[u].who.(muted := muted));
      }
    case DoSetTrack(huddle, id, kind, mid, _) =>
      if M.Apply(s, op) != s {
        var u :| u in M.Holders(s, huddle, id) && M.Apply(s, op) == M.Rewrite(s, u, M.WithMid(s.seats[u].who, kind, mid));
      }
    case _ =>
  }

  lemma FewerKeepsInv(s: State, t: State)
    requires Inv(s) && M.Valid(t.redis) && OnlyLeaves(s.redis, t.redis)
    requires t.rows == s.rows && t.txs == s.txs && t.strays == s.strays && t.clears <= s.clears && t.closings <= s.closings
    requires forall h {:trigger M.Occupants(t.redis, h)} :: h in s.closings - t.closings ==> M.Occupants(t.redis, h) == {}
    requires forall u :: u in t.redis.seats ==>
               ((t.redis.seats[u].who.huddle, t.redis.seats[u].who.id) in s.undos
                ==> (t.redis.seats[u].who.huddle, t.redis.seats[u].who.id) in t.undos)
    ensures Inv(t)
  {
    forall h | M.Occupants(s.redis, h) == {} ensures M.Occupants(t.redis, h) == {} {
      forall u | u in t.redis.seats ensures u !in M.Occupants(t.redis, h) {
        assert u !in M.Occupants(s.redis, h);
      }
    }
    forall h | Over(t, h) && h !in t.closings ensures M.Occupants(t.redis, h) == {} {
      assert Over(s, h);
    }
    forall u | u in t.redis.seats && t.redis.seats[u].who.huddle !in t.rows ensures Pending(t, t.redis.seats[u].who) {
      assert Pending(s, s.redis.seats[u].who);
      if !Excused(s, s.redis.seats[u].who) {
        var x :| x in s.txs && Wrote(s.txs[x], s.redis.seats[u].who);
        assert Wrote(t.txs[x], t.redis.seats[u].who);
      }
    }
  }

  // ---- every step keeps the invariant ----

  lemma RemoveGone(s: M.State, key: (Ulid, Ulid))
    requires M.Valid(s)
    ensures M.Holders(M.Remove(s, key.0, key.1), key.0, key.1) == {}
  {
    if M.Holders(s, key.0, key.1) != {} {
      var u :| u in M.Holders(s, key.0, key.1) && M.Remove(s, key.0, key.1) == M.Vacate(s, u);
      HuddleRuns.TheHolder(s, key.0, key.1, u);
    }
  }

  lemma UndoKeepsInv(s: State, key: (Ulid, Ulid))
    requires Inv(s) && Legal(s, Undo(key))
    ensures Inv(Next(s, Undo(key)))
  {
    var t := Next(s, Undo(key));
    ScriptsOnlyRemove(s.redis, M.DoRemove(key.0, key.1));
    RemoveGone(s.redis, key);
    forall u | u in t.redis.seats ensures (t.redis.seats[u].who.huddle, t.redis.seats[u].who.id) != key {
      assert u !in M.Holders(t.redis, key.0, key.1);
    }
    FewerKeepsInv(s, t);
  }

  lemma ClearKeepsInv(s: State, h: Ulid, order: seq<Ulid>)
    requires Inv(s) && Legal(s, DoClear(h, order))
    ensures Inv(Next(s, DoClear(h, order)))
    ensures M.Occupants(Next(s, DoClear(h, order)).redis, h) == {}
  {
    var t := Next(s, DoClear(h, order));
    ScriptsOnlyRemove(s.redis, M.DoClear(h, order));
    HuddleRuns.ClearKeepsValid(s.redis, h, order);
    forall u | u in t.redis.seats ensures u !in M.Occupants(t.redis, h) {
      assert u !in M.Occupants(s.redis, h);
    }
    FewerKeepsInv(s, t);
  }

  lemma WriteKeepsInv(s: State, t: Ulid, deadline: int, limit: int, status: M.Status)
    requires Inv(s) && Legal(s, WriteJoin(t, deadline, limit, status))
    ensures Inv(Next(s, WriteJoin(t, deadline, limit, status)))
  {
    var tx := s.txs[t];
    var next := Next(s, WriteJoin(t, deadline, limit, status));
    if M.Join(s.redis, tx.p, deadline, limit, status).1.Full? {
      DropTxKeepsInv(s, t);
    } else {
      HuddleRuns.JoinKeepsValid(s.redis, tx.p, deadline, limit, status);
      HuddleRuns.JoinSeats(s.redis, tx.p, deadline, limit, status);
      forall h | h != tx.p.huddle ensures M.Occupants(next.redis, h) <= M.Occupants(s.redis, h) {
        HuddleRuns.JoinOccupants(s.redis, tx.p, deadline, limit, status, h);
      }
      forall h | Over(next, h) && h !in next.closings ensures M.Occupants(next.redis, h) == {} {
        assert Over(s, h);
      }
      forall x | x in next.txs && x != t ensures HuddleOf(next.txs[x]) != tx.p.huddle {
        assert s.txs[x] == next.txs[x] && HuddleOf(s.txs[t]) == tx.p.huddle;
      }
      forall u | u in next.redis.seats && next.redis.seats[u].who.huddle !in next.rows ensures Pending(next, next.redis.seats[u].who) {
        if u == tx.p.user {
          assert Wrote(next.txs[t], next.redis.seats[u].who);
        } else {
          PendingStays(s, next, s.redis.seats[u].who, t);
        }
      }
    }
  }

  /** Marking a join as written takes nobody's excuse away. */
  lemma PendingStays(s: State, next: State, who: M.Participant, t: Ulid)
    requires Pending(s, who) && next.undos == s.undos && next.strays == s.strays && t in s.txs && t in next.txs
    requires forall x :: x in s.txs && x != t ==> x in next.txs && next.txs[x] == s.txs[x]
    requires !Wrote(s.txs[t], who)
    ensures Pending(next, who)
  {
    if !Excused(s, who) {
      var x :| x in s.txs && Wrote(s.txs[x], who);
      assert Wrote(next.txs[x], who);
    }
  }

  /** A transaction that wrote nothing to Redis can go at any time. */
  lemma DropTxKeepsInv(s: State, t: Ulid)
    requires Inv(s) && t in s.txs && !(s.txs[t].Joining? && s.txs[t].wrote)
    ensures Inv(s.(txs := s.txs - {t}))
  {
    var next := s.(txs := s.txs - {t});
    assert forall h :: Over(next, h) ==> Over(s, h);
    forall u | u in next.redis.seats && next.redis.seats[u].who.huddle !in next.rows ensures Pending(next, next.redis.seats[u].who) {
      var who := s.redis.seats[u].who;
      assert Pending(s, who);
      if !Excused(s, who) {
        var x :| x in s.txs && Wrote(s.txs[x], who);
        assert x in next.txs && Wrote(next.txs[x], who);
      }
    }
  }

  /** A new transaction locks a row nobody else works on. */
  lemma AddTxKeepsInv(s: State, t: Ulid, tx: Tx)
    requires Inv(s) && t !in s.txs && Unlocked(s, HuddleOf(tx))
    requires if tx.Joining? && tx.created then HuddleOf(tx) !in s.rows else IsActive(s, HuddleOf(tx))
    requires tx.Ending? ==> !tx.sawNobody
    ensures Inv(s.(txs := s.txs[t := tx]))
  {
    var next := s.(txs := s.txs[t := tx]);
    assert forall h :: Over(next, h) ==> Over(s, h);
    forall u | u in next.redis.seats && next.redis.seats[u].who.huddle !in next.rows ensures Pending(next, next.redis.seats[u].who) {
      var who := s.redis.seats[u].who;
      assert Pending(s, who);
      if !Excused(s, who) {
        var x :| x in s.txs && Wrote(s.txs[x], who);
        assert Wrote(next.txs[x], who);
      }
    }
  }

  /** The end of a transaction sets the phase of its row. */
  lemma CommitKeepsInv(s: State, t: Ulid, phase: Phase, next: State)
    requires Inv(s) && t in s.txs
    requires var h := HuddleOf(s.txs[t]);
             && next.redis == s.redis && next.txs == s.txs - {t} && next.rows == s.rows[h := phase]
             && s.undos <= next.undos && s.strays <= next.strays && s.clears <= next.clears <= s.clears + {h}
             && s.closings <= next.closings <= s.closings + {h}
             && (phase == Active ==> next.clears == s.clears && next.closings == s.closings)
             && (phase != Active && h !in next.closings ==> M.Occupants(s.redis, h) == {})
    ensures Inv(next)
  {
    var h := HuddleOf(s.txs[t]);
    forall g | Over(next, g) && g !in next.closings ensures M.Occupants(next.redis, g) == {} {
      if g != h { assert Over(s, g); }
    }
    forall x | x in next.txs ensures HuddleOf(next.txs[x]) != h {
      assert s.txs[x] == next.txs[x];
    }
    forall g | g in next.clears + next.closings ensures Over(next, g) {
      if g in s.clears + s.closings { assert Over(s, g); }
    }
    forall u | u in next.redis.seats && next.redis.seats[u].who.huddle !in next.rows ensures Pending(next, next.redis.seats[u].who) {
      var who := s.redis.seats[u].who;
      assert Pending(s, who);
      if !Excused(s, who) {
        var x :| x in s.txs && Wrote(s.txs[x], who);
        assert x in next.txs && Wrote(next.txs[x], who);
      }
    }
  }

  /** A join that wrote and failed before its row landed owes an undo, or does not know that it wrote. */
  lemma WroteAndGone(s: State, t: Ulid, next: State)
    requires Inv(s) && t in s.txs && s.txs[t].Joining?
    requires next == s.(txs := s.txs - {t}, undos := next.undos, strays := next.strays)
    requires s.undos <= next.undos && s.strays <= next.strays
    requires (s.txs[t].p.huddle, s.txs[t].p.id) in next.undos + next.strays
    ensures Inv(next)
  {
    assert forall h :: Over(next, h) ==> Over(s, h);
    forall u | u in next.redis.seats && next.redis.seats[u].who.huddle !in next.rows ensures Pending(next, next.redis.seats[u].who) {
      var who := s.redis.seats[u].who;
      assert Pending(s, who);
      if !Excused(s, who) {
        var x :| x in s.txs && Wrote(s.txs[x], who);
        if x != t { assert x in next.txs && Wrote(next.txs[x], who); }
      }
    }
  }

  lemma LoseJoinKeepsInv(s: State, t: Ulid, deadline: int, limit: int, status: M.Status)
    requires Inv(s) && Legal(s, LoseJoin(t, deadline, limit, status))
    ensures Inv(Next(s, LoseJoin(t, deadline, limit, status)))
  {
    var next := Next(s, LoseJoin(t, deadline, limit, status));
    if M.Join(s.redis, s.txs[t].p, deadline, limit, status).1.Full? {
      DropTxKeepsInv(s, t);
    } else {
      WriteKeepsInv(s, t, deadline, limit, status);
      var wrote := Next(s, WriteJoin(t, deadline, limit, status));
      LooksAside(wrote, s.looks);
      LostIsGone(s, t, deadline, limit, status);
      WroteAndGone(wrote.(looks := s.looks), t, next);
    }
  }

  /** A lost join is a written one that goes, with no check owed. */
  lemma LostIsGone(s: State, t: Ulid, deadline: int, limit: int, status: M.Status)
    requires Legal(s, LoseJoin(t, deadline, limit, status)) && !M.Join(s.redis, s.txs[t].p, deadline, limit, status).1.Full?
    ensures var wrote, p := Next(s, WriteJoin(t, deadline, limit, status)), s.txs[t].p;
            && t in wrote.txs && wrote.txs[t].Joining? && wrote.txs[t].p == p
            && Next(s, LoseJoin(t, deadline, limit, status))
               == wrote.(looks := s.looks, txs := wrote.txs - {t}, strays := wrote.strays + {(p.huddle, p.id)})
  {
    assert Next(s, WriteJoin(t, deadline, limit, status)).txs - {t} == s.txs - {t};
  }

  lemma LookKeepsInv(s: State, t: Ulid)
    requires Inv(s) && Legal(s, Look(t))
    ensures Inv(Next(s, Look(t)))
  {
    var h := s.txs[t].ending;
    if M.Occupants(s.redis, h) != {} {
      DropTxKeepsInv(s, t);
    } else {
      var next := Next(s, Look(t));
      assert forall g :: Over(next, g) ==> Over(s, g);
      forall u | u in next.redis.seats && next.redis.seats[u].who.huddle !in next.rows ensures Pending(next, next.redis.seats[u].who) {
        PendingStays(s, next, s.redis.seats[u].who, t);
      }
    }
  }

  /** The invariant does not speak of the checks owed. */
  lemma LooksAside(s: State, looks: multiset<Ulid>)
    requires Inv(s)
    ensures Inv(s.(looks := looks))
  {
    var n := s.(looks := looks);
    assert forall h :: Over(n, h) ==> Over(s, h);
    forall u | u in n.redis.seats && n.redis.seats[u].who.huddle !in n.rows ensures Pending(n, n.redis.seats[u].who) {
      assert Pending(s, s.redis.seats[u].who);
    }
  }

  lemma StepKeepsInv(s: State, step: Step)
    requires Inv(s) && Legal(s, step)
    ensures Inv(Next(s, step))
  {
    match step
    case BeginJoin(t, p) => AddTxKeepsInv(s, t, Joining(p, false, false));
    case StartJoin(t, p) => AddTxKeepsInv(s, t, Joining(p, true, false));
    case WriteJoin(t, deadline, limit, status) => WriteKeepsInv(s, t, deadline, limit, status);
    case LoseJoin(t, deadline, limit, status) => LoseJoinKeepsInv(s, t, deadline, limit, status);
    case CommitJoin(t) => CommitKeepsInv(s, t, Active, Next(s, step));
    case FailJoin(t, landed) =>
      if landed { CommitKeepsInv(s, t, Active, Next(s, step)); }
      else if s.txs[t].wrote { WroteAndGone(s, t, Next(s, step)); }
      else { DropTxKeepsInv(s, t); }
    case Undo(key) => UndoKeepsInv(s, key);
    case SkipLook(h) => LooksAside(s, s.looks - multiset{h});
    case LoseLook(h) => LooksAside(s, s.looks - multiset{h});
    case BeginEnd(t, h) =>
      AddTxKeepsInv(s, t, Ending(h, false));
      LooksAside(s.(txs := s.txs[t := Ending(h, false)]), s.looks - multiset{h});
    case Look(t) => LookKeepsInv(s, t);
    case CommitEnd(t) => CommitKeepsInv(s, t, Ended, Next(s, step));
    case BeginClose(t, h) => AddTxKeepsInv(s, t, Closing(h));
    case CommitClose(t, phase) => CommitKeepsInv(s, t, phase, Next(s, step));
    case Rollback(t) => DropTxKeepsInv(s, t);
    case DoClear(h, order) => ClearKeepsInv(s, h, order);
    case Script(op) =>
      ScriptsOnlyRemove(s.redis, op);
      FewerKeepsInv(s, Next(s, step));
    case LoseScript(op) =>
      ScriptsOnlyRemove(s.redis, op);
      FewerKeepsInv(s, Next(s, step));
  }

  lemma {:induction false} RunKeepsInv(states: seq<State>, steps: seq<Step>, i: nat)
    requires IsRun(states, steps) && i <= |steps|
    ensures Inv(states[i])
  {
    if i > 0 {
      RunKeepsInv(states, steps, i - 1);
      assert StepAt(IsStep, states, steps, i - 1);
      StepKeepsInv(states[i - 1], steps[i - 1]);
    }
  }

  // ---- the theorems ----

  /** In every run an ended or deleted huddle is empty, except while the Clear after an archive or delete is owed; and whoever
      sits in a huddle without a row is being seated by a join that may still commit, or owed an undo, or a stray. */
  lemma EndedHuddleIsEmpty(states: seq<State>, steps: seq<Step>, huddle: Ulid)
    requires IsRun(states, steps)
    ensures var s := states[|steps|];
            && (huddle in s.rows && s.rows[huddle] != Active && huddle !in s.closings ==> M.Occupants(s.redis, huddle) == {})
            && (huddle !in s.rows ==> forall u :: u in M.Occupants(s.redis, huddle) ==> Pending(s, s.redis.seats[u].who))
  {
    RunKeepsInv(states, steps, |steps|);
    assert huddle in states[|steps|].rows && states[|steps|].rows[huddle] != Active ==> Over(states[|steps|], huddle);
  }

  /** Once ended or deleted, a huddle stays so and nobody ever enters it: people only leave. */
  lemma {:induction false} NobodyEntersAnEndedHuddle(states: seq<State>, steps: seq<Step>, huddle: Ulid, i: nat, j: nat)
    requires IsRun(states, steps) && i <= j <= |steps| && Over(states[i], huddle)
    ensures Over(states[j], huddle)
    ensures M.Occupants(states[j].redis, huddle) <= M.Occupants(states[i].redis, huddle)
    decreases j
  {
    if i < j {
      NobodyEntersAnEndedHuddle(states, steps, huddle, i, j - 1);
      RunKeepsInv(states, steps, j - 1);
      assert StepAt(IsStep, states, steps, j - 1);
      EndedStepOnlyLeaves(states[j - 1], steps[j - 1], huddle);
    }
  }

  lemma EndedStepOnlyLeaves(s: State, step: Step, huddle: Ulid)
    requires Inv(s) && Legal(s, step) && Over(s, huddle)
    ensures Over(Next(s, step), huddle)
    ensures M.Occupants(Next(s, step).redis, huddle) <= M.Occupants(s.redis, huddle)
  {
    match step
    case WriteJoin(t, deadline, limit, status) =>
      if !M.Join(s.redis, s.txs[t].p, deadline, limit, status).1.Full? {
        HuddleRuns.JoinSeats(s.redis, s.txs[t].p, deadline, limit, status);
      }
    case LoseJoin(t, deadline, limit, status) =>
      if !M.Join(s.redis, s.txs[t].p, deadline, limit, status).1.Full? {
        HuddleRuns.JoinSeats(s.redis, s.txs[t].p, deadline, limit, status);
      }
    case Undo(key) => ScriptsOnlyRemove(s.redis, M.DoRemove(key.0, key.1));
    case DoClear(h, order) => ScriptsOnlyRemove(s.redis, M.DoClear(h, order));
    case Script(op) => ScriptsOnlyRemove(s.redis, op);
    case LoseScript(op) => ScriptsOnlyRemove(s.redis, op);
    case _ =>
  }

  /** The Clear after a huddle ended by itself takes nobody out. */
  lemma ClearAfterEndTakesNobody(states: seq<State>, steps: seq<Step>, huddle: Ulid, order: seq<Ulid>)
    requires IsRun(states, steps)
    requires var s := states[|steps|];
             huddle in s.clears && huddle !in s.closings && Legal(s, DoClear(huddle, order))
    ensures Next(states[|steps|], DoClear(huddle, order)).redis.seats == states[|steps|].redis.seats
  {
    var s := states[|steps|];
    RunKeepsInv(states, steps, |steps|);
    assert Over(s, huddle);
    HuddleRuns.ClearKeepsValid(s.redis, huddle, order);
  }
}
