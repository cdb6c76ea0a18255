/** What every run of refresh-token transactions keeps. */
module RefreshRuns {
  import opened Common
  import opened RefreshTokens

  // ---- every transaction keeps the chains ----

  /** Rows differ only in being revoked for a reason other than rotation. */
  ghost predicate OnlyRevoked(a: Table, b: Table) {
    && (forall id :: id in a <==> id in b)
    && forall id :: id in a ==> b[id].(revoked := a[id].revoked) == a[id] && (IsRotated(b[id]) <==> IsRotated(a[id]))
                                && (b[id].revoked.None? ==> a[id].revoked.None?)
  }

  lemma RevokeOnlyRevokes(rows: Table, chosen: set<Ulid>, now: int, reason: Reason)
    requires reason != Rotated && forall id :: id in chosen ==> id in rows && rows[id].revoked.None?
    ensures OnlyRevoked(rows, Revoke(rows, chosen, now, reason))
    ensures forall id :: id in Revoke(rows, chosen, now, reason) && Revoke(rows, chosen, now, reason)[id].revoked.None? ==> id !in chosen
  {
  }

  /** Accepted tokens stay accounted for while rows stay and rotated ones stay rotated. */
  lemma KeepsAccepted(s: State, n: State)
    requires AcceptedRotated(s) && n.accepted == s.accepted
    requires forall id :: id in s.rows ==> id in n.rows && n.rows[id].raw == s.rows[id].raw && (IsRotated(s.rows[id]) ==> IsRotated(n.rows[id]))
    ensures AcceptedRotated(n)
  {
    forall raw | raw in n.accepted ensures WasRotated(n, raw) {
      assert WasRotated(s, raw);
      var id :| IsOf(s.rows, id, raw) && IsRotated(s.rows[id]);
      assert IsOf(n.rows, id, raw);
    }
  }

  lemma RevokingKeepsValid(s: State, rows: Table)
    requires Valid(s) && OnlyRevoked(s.rows, rows)
    ensures Valid(s.(rows := rows))
  {
    var n := s.(rows := rows);
    forall f | f in n.chains ensures IsChain(rows, f, n.chains[f]) {
      assert IsChain(s.rows, f, s.chains[f]);
    }
    KeepsAccepted(s, n);
  }

  lemma SameChain(rows: Table, after: Table, family: Ulid, chain: seq<Ulid>)
    requires IsChain(rows, family, chain) && forall k :: 0 <= k < |chain| ==> chain[k] in after && after[chain[k]] == rows[chain[k]]
    ensures IsChain(after, family, chain)
  {
  }

  lemma LoginKeepsChains(s: State, user: Ulid, family: Ulid, id: Ulid, raw: Ulid, now: int)
    requires Chained(s) && NewToken(s, id, raw) && family !in s.chains
    ensures Chained(Login(s, user, family, id, raw, now))
  {
    var n := Login(s, user, family, id, raw, now);
    forall f | f in n.chains ensures IsChain(n.rows, f, n.chains[f]) {
      if f != family {
        assert IsChain(s.rows, f, s.chains[f]);
        SameChain(s.rows, n.rows, f, s.chains[f]);
      }
    }
  }

  lemma LoginKeepsValid(s: State, user: Ulid, family: Ulid, id: Ulid, raw: Ulid, now: int)
    requires Valid(s) && NewToken(s, id, raw) && family !in s.chains
    ensures Valid(Login(s, user, family, id, raw, now))
  {
    LoginKeepsChains(s, user, family, id, raw, now);
    NewRawIsUnique(s, Login(s, user, family, id, raw, now).rows, id, raw);
    KeepsAccepted(s, Login(s, user, family, id, raw, now));
  }

  lemma NewRawIsUnique(s: State, rows: Table, id: Ulid, raw: Ulid)
    requires RawsUnique(s) && NewToken(s, id, raw) && id in rows && rows[id].raw == raw
    requires forall x :: x in rows && x != id ==> x in s.rows && rows[x].raw == s.rows[x].raw
    ensures RawsUnique(s.(rows := rows))
  {
    forall x | x in s.rows ensures s.rows[x].raw != raw {
      assert !IsOf(s.rows, x, raw);
    }
  }

  /** A live token is the last of its chain. */
  lemma LiveIsTip(s: State, id: Ulid)
    requires Valid(s) && id in s.rows && s.rows[id].revoked.None?
    ensures s.rows[id].family in s.chains
    ensures var chain := s.chains[s.rows[id].family]; chain != [] && chain[|chain| - 1] == id
  {
    var chain := s.chains[s.rows[id].family];
    assert IsChain(s.rows, s.rows[id].family, chain);
    var k :| 0 <= k < |chain| && chain[k] == id;
  }

  /** A chain whose last token is rotated grows by the successor. */
  lemma ChainGrows(rows: Table, after: Table, family: Ulid, chain: seq<Ulid>, id: Ulid)
    requires IsChain(rows, family, chain) && id !in rows && id in after
    requires var tip := chain[|chain| - 1];
             && after[id].rotatedFrom == Some(tip) && after[id].family == family && after[id].user == rows[tip].user && !IsRotated(after[id])
             && tip in after && IsRotated(after[tip]) && after[tip].(revoked := rows[tip].revoked) == rows[tip]
    requires forall x :: x in rows && x != chain[|chain| - 1] ==> x in after && after[x] == rows[x]
    ensures IsChain(after, family, chain + [id])
  {
    assert id !in Elements(chain);
    DistinctMore(chain, id);
  }

  lemma OwnChainGrows(s: State, spent: Ulid, id: Ulid, raw: Ulid, now: int)
    requires Valid(s) && spent in s.rows && s.rows[spent].revoked.None? && NewToken(s, id, raw)
    ensures var n, f := Rotate(s, spent, id, raw, now), s.rows[spent].family; f in n.chains && IsChain(n.rows, f, n.chains[f])
  {
    LiveIsTip(s, spent);
    var f := s.rows[spent].family;
    ChainGrows(s.rows, Rotate(s, spent, id, raw, now).rows, f, s.chains[f], id);
  }

  lemma OtherChainStays(s: State, spent: Ulid, id: Ulid, raw: Ulid, now: int, f: Ulid)
    requires Valid(s) && spent in s.rows && NewToken(s, id, raw) && f in s.chains && f != s.rows[spent].family
    ensures var n := Rotate(s, spent, id, raw, now); f in n.chains && IsChain(n.rows, f, n.chains[f])
  {
    assert IsChain(s.rows, f, s.chains[f]);
    SameChain(s.rows, Rotate(s, spent, id, raw, now).rows, f, s.chains[f]);
  }

  lemma RotateKeepsChains(s: State, spent: Ulid, id: Ulid, raw: Ulid, now: int)
    requires Valid(s) && spent in s.rows && s.rows[spent].revoked.None? && NewToken(s, id, raw)
    ensures var n := Rotate(s, spent, id, raw, now); forall f :: f in n.chains ==> IsChain(n.rows, f, n.chains[f])
  {
    var n := Rotate(s, spent, id, raw, now);
    forall f | f in n.chains ensures IsChain(n.rows, f, n.chains[f]) {
      if f == s.rows[spent].family { OwnChainGrows(s, spent, id, raw, now); } else { OtherChainStays(s, spent, id, raw, now, f); }
    }
  }

  /** The chain of the rotated token's family gains the successor, and no chain loses a token. */
  lemma RotatedChains(s: State, spent: Ulid, id: Ulid, raw: Ulid, now: int, family: Ulid)
    requires spent in s.rows && s.rows[spent].family in s.chains
    ensures var n := Rotate(s, spent, id, raw, now);
            && s.rows[spent].family in n.chains && id in n.chains[s.rows[spent].family]
            && (family in s.chains ==> family in n.chains && forall x :: x in s.chains[family] ==> x in n.chains[family])
  {
    var chain := s.chains[s.rows[spent].family];
    assert (chain + [id])[|chain|] == id;
  }

  lemma RotateKeepsMembers(s: State, spent: Ulid, id: Ulid, raw: Ulid, now: int)
    requires Valid(s) && spent in s.rows && NewToken(s, id, raw)
    ensures var n := Rotate(s, spent, id, raw, now); forall x :: x in n.rows ==> n.rows[x].family in n.chains && x in n.chains[n.rows[x].family]
  {
    var n := Rotate(s, spent, id, raw, now);
    forall x | x in n.rows ensures n.rows[x].family in n.chains && x in n.chains[n.rows[x].family] {
      RotatedChains(s, spent, id, raw, now, n.rows[x].family);
      if x != id { assert x in s.chains[s.rows[x].family]; }
    }
  }

  lemma RotateKeepsValid(s: State, spent: Ulid, id: Ulid, raw: Ulid, now: int)
    requires Valid(s) && spent in s.rows && s.rows[spent].revoked.None? && NewToken(s, id, raw)
    ensures Valid(Rotate(s, spent, id, raw, now))
    ensures s.rows[spent].raw !in s.accepted
  {
    RotateKeepsChains(s, spent, id, raw, now);
    RotateKeepsMembers(s, spent, id, raw, now);
    NewRawIsUnique(s, Rotate(s, spent, id, raw, now).rows, id, raw);
    AcceptedOnce(s, spent, id, raw, now);
  }

  /** Whatever was exchanged stays so, and so is the token presented now. */
  lemma RotatedNow(s: State, spent: Ulid, id: Ulid, raw: Ulid, now: int, r: Ulid)
    requires spent in s.rows && NewToken(s, id, raw) && (WasRotated(s, r) || r == s.rows[spent].raw)
    ensures WasRotated(Rotate(s, spent, id, raw, now), r)
  {
    var n := Rotate(s, spent, id, raw, now);
    if r == s.rows[spent].raw {
      assert IsOf(n.rows, spent, r);
    } else {
      var x :| IsOf(s.rows, x, r) && IsRotated(s.rows[x]);
      assert IsOf(n.rows, x, r);
    }
  }

  /** The raw token of a live row was not exchanged before. */
  lemma AcceptedOnce(s: State, spent: Ulid, id: Ulid, raw: Ulid, now: int)
    requires Valid(s) && spent in s.rows && s.rows[spent].revoked.None? && NewToken(s, id, raw)
    ensures s.rows[spent].raw !in s.accepted
    ensures var n := Rotate(s, spent, id, raw, now); Distinct(n.accepted) && forall r :: r in n.accepted ==> WasRotated(n, r)
  {
    var n, presented := Rotate(s, spent, id, raw, now), s.rows[spent].raw;
    assert forall x :: IsOf(s.rows, x, presented) ==> x == spent;
    assert !WasRotated(s, presented);
    assert presented !in Elements(s.accepted);
    DistinctMore(s.accepted, presented);
    forall r | r in n.accepted ensures WasRotated(n, r) {
      RotatedNow(s, spent, id, raw, now, r);
    }
  }

  lemma RefreshKeepsValid(s: State, presented: Ulid, id: Ulid, raw: Ulid, now: int)
    requires Valid(s) && NewToken(s, id, raw)
    ensures Valid(Refresh(s, presented, id, raw, now).0)
  {
    var r := Refresh(s, presented, id, raw, now);
    match r.1
    case Refused =>
    case Reused(family) =>
      RevokeOnlyRevokes(s.rows, LiveOfFamily(s.rows, family), now, ReuseDetected);
      RevokingKeepsValid(s, r.0.rows);
    case Renewed(family) => RotateKeepsValid(s, Find(s.rows, presented).value, id, raw, now);
  }

  /** Revoking unrevoked tokens, for another reason than rotation. */
  lemma RevokeKeepsValid(s: State, chosen: set<Ulid>, now: int, reason: Reason)
    requires Valid(s) && reason != Rotated && forall id :: id in chosen ==> id in s.rows && s.rows[id].revoked.None?
    ensures Valid(s.(rows := Revoke(s.rows, chosen, now, reason)))
  {
    RevokeOnlyRevokes(s.rows, chosen, now, reason);
    RevokingKeepsValid(s, Revoke(s.rows, chosen, now, reason));
  }

  lemma LogoutKeepsValid(s: State, presented: Ulid, now: int)
    requires Valid(s)
    ensures Valid(Logout(s, presented, now))
  {
    var found := Find(s.rows, presented);
    if found.Some? {
      RevokeKeepsValid(s, LiveOfFamily(s.rows, s.rows[found.value].family), now, LoggedOut);
    }
  }

  lemma DeletingKeepsValid(s: State, user: Ulid)
    requires Valid(s)
    ensures Valid(s.(deleted := s.deleted + {user}))
  {
    KeepsAccepted(s, s.(deleted := s.deleted + {user}));
  }

  lemma ApplyKeepsValid(s: State, op: Op)
    requires Valid(s) && Legal(s, op)
    ensures Valid(Apply(s, op))
  {
    match op
    case DoLogin(user, family, id, raw, now) => LoginKeepsValid(s, user, family, id, raw, now);
    case DoRefresh(presented, id, raw, now) => RefreshKeepsValid(s, presented, id, raw, now);
    case DoLogout(presented, now) => LogoutKeepsValid(s, presented, now);
    case DoRevokeSession(user, family, now) => RevokeKeepsValid(s, LiveOfSession(s.rows, user, family), now, LoggedOut);
    case DoRevokeOthers(user, keep, now) => RevokeKeepsValid(s, LiveElsewhere(s.rows, user, keep), now, LoggedOut);
    case DoReset(user, now) => RevokeKeepsValid(s, LiveOfUser(s.rows, user), now, PasswordReset);
    case DoDelete(user) => DeletingKeepsValid(s, user);
  }

  lemma ApplyKeepsRaws(s: State, op: Op)
    requires RawsUnique(s) && Legal(s, op)
    ensures RawsUnique(Apply(s, op))
  {
    match op
    case DoLogin(user, family, id, raw, now) => NewRawIsUnique(s, Apply(s, op).rows, id, raw);
    case DoRefresh(presented, id, raw, now) =>
      if Refresh(s, presented, id, raw, now).1.Renewed? { NewRawIsUnique(s, Apply(s, op).rows, id, raw); }
    case _ =>
  }

  lemma LegalPrefix(s: State, ops: seq<Op>)
    requires LegalRun(s, ops) && ops != []
    ensures LegalRun(s, ops[..|ops| - 1]) && Legal(Run(s, ops[..|ops| - 1]), ops[|ops| - 1])
  {
    var n := |ops| - 1;
    forall i | 0 <= i < n ensures Legal(Run(s, ops[..n][..i]), ops[..n][i]) {
      assert ops[..n][..i] == ops[..i] && Legal(Run(s, ops[..i]), ops[i]);
    }
  }

  lemma {:induction false} RunKeepsValid(s: State, ops: seq<Op>)
    requires Valid(s) && LegalRun(s, ops)
    ensures Valid(Run(s, ops))
    decreases |ops|
  {
    if ops != [] {
      var n := |ops| - 1;
      LegalPrefix(s, ops);
      RunKeepsValid(s, ops[..n]);
      ApplyKeepsValid(Run(s, ops[..n]), ops[n]);
    }
  }

  // ---- the theorems ----

  /** In every run the tokens of a family form one rotated_from chain of one user, and only the newest can be unrevoked. */
  lemma FamilyIsOneChain(ops: seq<Op>, family: Ulid)
    requires LegalRun(INITIAL, ops)
    ensures var s := Run(INITIAL, ops);
            family in s.chains ==>
              var chain := s.chains[family];
              && IsChain(s.rows, family, chain)
              && (forall id :: id in s.rows && s.rows[id].family == family <==> id in chain)
              && LiveOfFamily(s.rows, family) <= {chain[|chain| - 1]}
    ensures family !in Run(INITIAL, ops).chains ==> forall id :: id in Run(INITIAL, ops).rows ==> Run(INITIAL, ops).rows[id].family != family
  {
    RunKeepsValid(INITIAL, ops);
    var s := Run(INITIAL, ops);
    if family in s.chains {
      var chain := s.chains[family];
      assert IsChain(s.rows, family, chain);
      forall id | id in LiveOfFamily(s.rows, family) ensures id == chain[|chain| - 1] {
        LiveIsTip(s, id);
      }
    }
  }

  /** A session is active exactly while the newest token of its family is unrevoked and unexpired and its user exists. */
  lemma ActiveIsTheTip(ops: seq<Op>, user: Ulid, family: Ulid, now: int)
    requires LegalRun(INITIAL, ops)
    ensures var s := Run(INITIAL, ops);
            SessionActive(s, user, family, now) <==>
              && family in s.chains && s.chains[family] != []
              && var tip := s.chains[family][|s.chains[family]| - 1];
                 tip in s.rows && s.rows[tip].user == user && s.rows[tip].revoked.None? && s.rows[tip].expires > now && user !in s.deleted
  {
    RunKeepsValid(INITIAL, ops);
    var s := Run(INITIAL, ops);
    if family in s.chains {
      assert IsChain(s.rows, family, s.chains[family]);
    }
    if id :| id in LiveOfSession(s.rows, user, family) && s.rows[id].expires > now && user !in s.deleted {
      LiveIsTip(s, id);
    } else if family in s.chains && s.chains[family] != [] {
      assert s.chains[family][|s.chains[family]| - 1] !in LiveOfSession(s.rows, user, family)
             || s.rows[s.chains[family][|s.chains[family]| - 1]].expires <= now || user in s.deleted;
    }
  }

  /** A family without an unrevoked token is dead: no transaction ever gives it one again. */
  ghost predicate Dead(s: State, family: Ulid) {
    family in s.chains && LiveOfFamily(s.rows, family) == {}
  }

  /** Rows stay, keep their family and raw token, and once revoked stay revoked for the same reason. */
  lemma RowsPersist(s: State, op: Op, id: Ulid)
    requires Legal(s, op) && id in s.rows
    ensures id in Apply(s, op).rows
    ensures var t := Apply(s, op).rows[id];
            && t.(revoked := s.rows[id].revoked) == s.rows[id]
            && (s.rows[id].revoked.Some? ==> t.revoked == s.rows[id].revoked)
  {
    match op
    case DoRefresh(presented, x, raw, now) =>
      if Refresh(s, presented, x, raw, now).1.Renewed? { assert x != id; }
    case _ =>
  }

  /** A dead family is never renewed. */
  lemma DeadIsNotRenewed(s: State, family: Ulid, presented: Ulid, id: Ulid, raw: Ulid, now: int)
    requires Dead(s, family)
    ensures Refresh(s, presented, id, raw, now).1 != Renewed(family)
  {
    var found := Find(s.rows, presented);
    if found.Some? { assert found.value !in LiveOfFamily(s.rows, family); }
  }

  /** The only new rows are those of a login, in a new family, and of a renewal. */
  lemma NewRows(s: State, op: Op, x: Ulid, family: Ulid)
    requires Legal(s, op) && Dead(s, family) && x in Apply(s, op).rows && x !in s.rows
    ensures Apply(s, op).rows[x].family != family
  {
    match op
    case DoRefresh(presented, id, raw, now) => DeadIsNotRenewed(s, family, presented, id, raw, now);
    case _ =>
  }

  lemma ApplyKeepsDead(s: State, op: Op, family: Ulid)
    requires Legal(s, op) && Dead(s, family)
    ensures Dead(Apply(s, op), family)
  {
    ChainsStay(s, op, family);
    forall id | id in Apply(s, op).rows ensures id !in LiveOfFamily(Apply(s, op).rows, family) {
      if id in s.rows {
        assert id !in LiveOfFamily(s.rows, family);
        RowsPersist(s, op, id);
      } else {
        NewRows(s, op, id, family);
      }
    }
  }

  lemma {:induction false} DeadStaysDead(s: State, ops: seq<Op>, family: Ulid)
    requires LegalRun(s, ops) && Dead(s, family)
    ensures Dead(Run(s, ops), family)
    decreases |ops|
  {
    if ops != [] {
      var n := |ops| - 1;
      LegalPrefix(s, ops);
      DeadStaysDead(s, ops[..n], family);
      ApplyKeepsDead(Run(s, ops[..n]), ops[n], family);
    }
  }

  /** Presenting a rotated token of an existing user kills its family; so does logging out with any token of it, revoking the
      session as its user, revoking the user's other sessions and resetting the user's password. */
  lemma RevocationsKill(s: State, family: Ulid, presented: Ulid, other: Ulid, id: Ulid, raw: Ulid, now: int)
    requires Valid(s) && family in s.chains
    ensures var user := s.rows[s.chains[family][0]].user;
            && (forall x :: IsOf(s.rows, x, presented) && s.rows[x].family == family ==>
                  && Dead(Logout(s, presented, now), family)
                  && (IsRotated(s.rows[x]) && user !in s.deleted ==>
                        Refresh(s, presented, id, raw, now).1 == Reused(family) && Dead(Refresh(s, presented, id, raw, now).0, family)))
            && Dead(RevokeSession(s, user, family, now), family)
            && (other != family ==> Dead(RevokeOthers(s, user, other, now), family))
            && Dead(ResetPassword(s, user, now), family)
  {
    var user := s.rows[s.chains[family][0]].user;
    forall x | x in s.rows && s.rows[x].family == family ensures s.rows[x].user == user {
      assert IsChain(s.rows, family, s.chains[family]);
    }
    forall x | IsOf(s.rows, x, presented) ensures Find(s.rows, presented) == Some(x) {
      assert !(Find(s.rows, presented).None?);
    }
    KillsFamily(s.rows, LiveOfFamily(s.rows, family), family, now, LoggedOut);
    KillsFamily(s.rows, LiveOfFamily(s.rows, family), family, now, ReuseDetected);
    KillsFamily(s.rows, LiveOfSession(s.rows, user, family), family, now, LoggedOut);
    if other != family { KillsFamily(s.rows, LiveElsewhere(s.rows, user, other), family, now, LoggedOut); }
    KillsFamily(s.rows, LiveOfUser(s.rows, user), family, now, PasswordReset);
  }

  lemma KillsFamily(rows: Table, chosen: set<Ulid>, family: Ulid, now: int, reason: Reason)
    requires LiveOfFamily(rows, family) <= chosen
    ensures LiveOfFamily(Revoke(rows, chosen, now, reason), family) == {}
  {
    var after := Revoke(rows, chosen, now, reason);
    forall x | x in after ensures x !in LiveOfFamily(after, family) {
      if x !in chosen { assert x !in LiveOfFamily(rows, family); }
    }
  }

  /** A rotated token stays rotated. */
  lemma {:induction false} RotatedStays(s: State, ops: seq<Op>, raw: Ulid)
    requires Valid(s) && LegalRun(s, ops) && WasRotated(s, raw)
    ensures WasRotated(Run(s, ops), raw)
    decreases |ops|
  {
    if ops != [] {
      var n := |ops| - 1;
      LegalPrefix(s, ops);
      RotatedStays(s, ops[..n], raw);
      RunKeepsValid(s, ops[..n]);
      var m := Run(s, ops[..n]);
      var id :| IsOf(m.rows, id, raw) && IsRotated(m.rows[id]);
      RowsPersist(m, ops[n], id);
      assert IsOf(Run(s, ops).rows, id, raw);
    }
  }

  /** The token that an exchange takes is rotated afterwards. */
  lemma Renews(s: State, op: Op) returns (x: Ulid)
    requires Valid(s) && op.DoRefresh? && Legal(s, op) && Refresh(s, op.presented, op.id, op.raw, op.now).1.Renewed?
    ensures IsOf(Apply(s, op).rows, x, op.presented) && IsRotated(Apply(s, op).rows[x])
    ensures x in s.rows && s.rows[x].family == Refresh(s, op.presented, op.id, op.raw, op.now).1.family
    ensures Apply(s, op).rows[x].family == s.rows[x].family
  {
    x := Find(s.rows, op.presented).value;
  }

  /** Each raw token is accepted at most once: presented again it is refused, and if its user still exists the whole family is
      revoked. */
  lemma AcceptedAtMostOnce(s: State, first: Op, between: seq<Op>, again: Op)
    requires Valid(s) && first.DoRefresh? && again.DoRefresh? && again.presented == first.presented
    requires LegalRun(s, [first] + between + [again])
    requires Refresh(s, first.presented, first.id, first.raw, first.now).1.Renewed?
    ensures var family := Refresh(s, first.presented, first.id, first.raw, first.now).1.family;
            var m := Run(Apply(s, first), between);
            var r := Refresh(m, again.presented, again.id, again.raw, again.now);
            if r.1.Reused? then r.1.family == family && Dead(r.0, family)
            else r.1 == Refused && exists id :: IsOf(m.rows, id, first.presented) && m.rows[id].user in m.deleted
  {
    var family := Refresh(s, first.presented, first.id, first.raw, first.now).1.family;
    SplitRun(s, first, between, again);
    ApplyKeepsValid(s, first);
    var n := Apply(s, first);
    var x := Renews(s, first);
    RotatedStays(n, between, first.presented);
    RunKeepsValid(n, between);
    FamilyStays(n, between, x);
    RotatedIsRefused(Run(n, between), x, again.presented, again.id, again.raw, again.now);
  }

  /** What happens to a token that was exchanged before. */
  lemma RotatedIsRefused(s: State, x: Ulid, presented: Ulid, id: Ulid, raw: Ulid, now: int)
    requires Valid(s) && IsOf(s.rows, x, presented) && WasRotated(s, presented) && s.rows[x].family in s.chains
    ensures var r := Refresh(s, presented, id, raw, now);
            if r.1.Reused? then r.1.family == s.rows[x].family && Dead(r.0, s.rows[x].family)
            else r.1 == Refused && s.rows[x].user in s.deleted
  {
    var y :| IsOf(s.rows, y, presented) && IsRotated(s.rows[y]);
    assert Find(s.rows, presented) == Some(x) && y == x;
    KillsFamily(s.rows, LiveOfFamily(s.rows, s.rows[x].family), s.rows[x].family, now, ReuseDetected);
  }

  lemma ChainsStay(s: State, op: Op, family: Ulid)
    requires family in s.chains
    ensures family in Apply(s, op).chains
  {
  }

  lemma {:induction false} FamilyStays(s: State, ops: seq<Op>, id: Ulid)
    requires Valid(s) && LegalRun(s, ops) && id in s.rows
    ensures var m := Run(s, ops);
            id in m.rows && m.rows[id].family == s.rows[id].family && m.rows[id].raw == s.rows[id].raw && m.rows[id].family in m.chains
    decreases |ops|
  {
    if ops != [] {
      var n := |ops| - 1;
      LegalPrefix(s, ops);
      FamilyStays(s, ops[..n], id);
      RowsPersist(Run(s, ops[..n]), ops[n], id);
      ChainsStay(Run(s, ops[..n]), ops[n], Run(s, ops[..n]).rows[id].family);
    }
  }

  lemma {:induction false} SplitRun(s: State, first: Op, between: seq<Op>, again: Op)
    requires LegalRun(s, [first] + between + [again])
    ensures Legal(s, first) && LegalRun(Apply(s, first), between) && Legal(Run(Apply(s, first), between), again)
  {
    var ops := [first] + between + [again];
    assert ops[..0] == [] && Legal(Run(s, ops[..0]), ops[0]);
    forall i | 0 <= i <= |between| ensures Run(s, ops[..i + 1]) == Run(Apply(s, first), between[..i]) {
      assert ops[..i + 1] == [first] + between[..i];
      RunFrom(s, first, between[..i]);
    }
    forall i | 0 <= i < |between| ensures Legal(Run(Apply(s, first), between[..i]), between[i]) {
      assert Legal(Run(s, ops[..i + 1]), ops[i + 1]);
    }
    assert between[..|between|] == between;
    assert Legal(Run(s, ops[..|between| + 1]), ops[|between| + 1]);
  }

  lemma {:induction false} RunFrom(s: State, first: Op, ops: seq<Op>)
    ensures Run(s, [first] + ops) == Run(Apply(s, first), ops)
    decreases |ops|
  {
    if ops == [] {
      assert [first] + ops == [first] && [first][..0] == [];
      assert Run(s, []) == s;
    } else {
      var n := |ops| - 1;
      assert ([first] + ops)[..n + 1] == [first] + ops[..n];
      RunFrom(s, first, ops[..n]);
    }
  }
}
