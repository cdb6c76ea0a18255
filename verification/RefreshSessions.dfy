/** What the transactions on refresh tokens mean for sessions: which one each of them ends, which it leaves alone, and when a raw
    token is exchanged. */
module RefreshSessions {
  import opened Common
  import opened RefreshTokens
  import opened RefreshRuns

  /** How long a token is good for. */
  const THIRTY_DAYS := 2592000

  // ---- rows ----

  /** Whose tokens a transaction revokes. */
  datatype Target = WholeFamily(family: Ulid) | OneSession(user: Ulid, family: Ulid) | OtherSessions(user: Ulid, keep: Ulid) | AllOf(user: Ulid)

  predicate Hits(target: Target, user: Ulid, family: Ulid) {
    match target
    case WholeFamily(f) => family == f
    case OneSession(u, f) => user == u && family == f
    case OtherSessions(u, keep) => user == u && family != keep
    case AllOf(u) => user == u
  }

  /** The statement rewrote exactly the rows of the target that were not revoked before; it neither added nor removed any. */
  ghost predicate Revoked(s: State, n: State, target: Target, now: int, reason: Reason) {
    && n == s.(rows := n.rows) && n.rows.Keys == s.rows.Keys
    && forall x :: x in s.rows ==>
         n.rows[x] == if Hits(target, s.rows[x].user, s.rows[x].family) && s.rows[x].revoked.None?
                      then s.rows[x].(revoked := Some(Revocation(now, reason))) else s.rows[x]
  }

  /** Which rows each revoking transaction hits: those of the presented token's family, of one session of the user, of the user's other
      sessions, of the user. */
  lemma RevokesOnly(s: State, user: Ulid, family: Ulid, now: int)
    ensures Revoked(s, RevokeSession(s, user, family, now), OneSession(user, family), now, LoggedOut)
    ensures Revoked(s, RevokeOthers(s, user, family, now), OtherSessions(user, family), now, LoggedOut)
    ensures Revoked(s, ResetPassword(s, user, now), AllOf(user), now, PasswordReset)
  {
  }

  lemma LogoutRevokesOnly(s: State, presented: Ulid, x: Ulid, now: int)
    requires RawsUnique(s)
    ensures (forall y :: !IsOf(s.rows, y, presented)) ==> Logout(s, presented, now) == s
    ensures IsOf(s.rows, x, presented) ==> Revoked(s, Logout(s, presented, now), WholeFamily(s.rows[x].family), now, LoggedOut)
  {
    if IsOf(s.rows, x, presented) { assert Find(s.rows, presented) == Some(x); }
  }

  // ---- sessions ----

  /** The raw token was issued in the family. */
  ghost predicate OfFamily(s: State, raw: Ulid, family: Ulid) {
    exists x :: IsOf(s.rows, x, raw) && s.rows[x].family == family
  }

  /** It is the newest of the family. */
  ghost predicate IsNewest(s: State, raw: Ulid, family: Ulid) {
    family in s.chains && s.chains[family] != [] && IsOf(s.rows, s.chains[family][|s.chains[family]| - 1], raw)
  }

  /** It was exchanged before, and its user still exists. */
  ghost predicate IsSpent(s: State, raw: Ulid, family: Ulid) {
    exists x :: IsOf(s.rows, x, raw) && s.rows[x].family == family && IsRotated(s.rows[x]) && s.rows[x].user !in s.deleted
  }

  /** The row is the only one of its family that may be unrevoked, and all of them are of one user. */
  ghost predicate IsTip(s: State, x: Ulid) {
    x in s.rows && forall y :: y in s.rows && s.rows[y].family == s.rows[x].family ==> s.rows[y].user == s.rows[x].user && (y != x ==> s.rows[y].revoked.Some?)
  }

  lemma OneOwner(s: State, a: Ulid, b: Ulid)
    requires Chained(s) && a in s.rows && b in s.rows && s.rows[a].family == s.rows[b].family
    ensures s.rows[a].user == s.rows[b].user
  {
    var chain := s.chains[s.rows[a].family];
    assert IsChain(s.rows, s.rows[a].family, chain);
    var i :| 0 <= i < |chain| && chain[i] == a;
    var j :| 0 <= j < |chain| && chain[j] == b;
  }

  lemma NewestIsTip(s: State, x: Ulid, family: Ulid)
    requires Valid(s) && family in s.chains && s.chains[family] != [] && x == s.chains[family][|s.chains[family]| - 1]
    ensures IsTip(s, x) && s.rows[x].family == family
  {
    assert IsChain(s.rows, family, s.chains[family]);
    forall y | y in s.rows && s.rows[y].family == family ensures s.rows[y].user == s.rows[x].user && (y != x ==> s.rows[y].revoked.Some?) {
      OneOwner(s, x, y);
      if s.rows[y].revoked.None? { LiveIsTip(s, y); }
    }
  }

  /** What is known of the row of a presented token. */
  lemma Presented(s: State, raw: Ulid, x: Ulid, family: Ulid)
    requires Valid(s) && IsOf(s.rows, x, raw)
    ensures Find(s.rows, raw) == Some(x)
    ensures OfFamily(s, raw, family) <==> s.rows[x].family == family
    ensures IsSpent(s, raw, family) <==> s.rows[x].family == family && IsRotated(s.rows[x]) && s.rows[x].user !in s.deleted
    ensures IsNewest(s, raw, family) ==> s.rows[x].family == family && IsTip(s, x)
    ensures s.rows[x].revoked.None? ==> IsTip(s, x) && IsNewest(s, raw, s.rows[x].family)
  {
    forall y | IsOf(s.rows, y, raw) ensures y == x {}
    if IsNewest(s, raw, family) { NewestIsTip(s, x, family); }
    if s.rows[x].revoked.None? {
      LiveIsTip(s, x);
      NewestIsTip(s, x, s.rows[x].family);
    }
  }

  lemma ActiveMeans(s: State, user: Ulid, family: Ulid, t: int)
    ensures SessionActive(s, user, family, t) <==> user !in s.deleted && exists x :: IsLive(s, x, user, family, t)
  {
    if id :| id in LiveOfSession(s.rows, user, family) && s.rows[id].expires > t && user !in s.deleted {
      assert IsLive(s, id, user, family, t);
    }
    if x :| IsLive(s, x, user, family, t) { assert x in LiveOfSession(s.rows, user, family); }
  }

  ghost predicate IsLive(s: State, x: Ulid, user: Ulid, family: Ulid, t: int) {
    x in s.rows && s.rows[x].user == user && s.rows[x].family == family && s.rows[x].revoked.None? && s.rows[x].expires > t
  }

  /** The session of a tip. */
  lemma ActiveByTip(s: State, x: Ulid, user: Ulid, t: int)
    requires IsTip(s, x)
    ensures SessionActive(s, user, s.rows[x].family, t) <==> IsLive(s, x, user, s.rows[x].family, t) && user !in s.deleted
  {
    ActiveMeans(s, user, s.rows[x].family, t);
    forall y | IsLive(s, y, user, s.rows[x].family, t) ensures y == x {}
  }

  /** A raw token is exchanged exactly if it is the newest of its family and the session is active. One that was exchanged before
      gives its family away. Any other is refused, and refusing changes nothing. */
  lemma ExchangedIff(s: State, presented: Ulid, id: Ulid, raw: Ulid, now: int, family: Ulid)
    requires Valid(s)
    ensures var (n, r) := Refresh(s, presented, id, raw, now);
            && (r == Renewed(family) <==> IsNewest(s, presented, family) && exists user :: SessionActive(s, user, family, now))
            && (r == Reused(family) <==> IsSpent(s, presented, family))
            && (r == Refused ==> n == s)
  {
    var r := Refresh(s, presented, id, raw, now).1;
    if x :| IsOf(s.rows, x, presented) {
      Presented(s, presented, x, family);
      ExchangedRow(s, presented, x, id, raw, now, family);
    }
  }

  lemma ExchangedRow(s: State, presented: Ulid, x: Ulid, id: Ulid, raw: Ulid, now: int, family: Ulid)
    requires Find(s.rows, presented) == Some(x)
    requires IsNewest(s, presented, family) ==> s.rows[x].family == family && IsTip(s, x)
    requires s.rows[x].revoked.None? ==> IsTip(s, x) && IsNewest(s, presented, s.rows[x].family)
    ensures var (n, r) := Refresh(s, presented, id, raw, now);
            && (r == Renewed(family) <==> IsNewest(s, presented, family) && exists user :: SessionActive(s, user, family, now))
            && (r == Reused(family) <==> s.rows[x].family == family && IsRotated(s.rows[x]) && s.rows[x].user !in s.deleted)
            && (r == Refused ==> n == s)
  {
    if s.rows[x].family == family && IsTip(s, x) {
      forall user ensures SessionActive(s, user, family, now) <==> IsLive(s, x, user, family, now) && user !in s.deleted {
        ActiveByTip(s, x, user, now);
      }
      assert SessionActive(s, s.rows[x].user, family, now) <==> Refresh(s, presented, id, raw, now).1 == Renewed(family);
    }
  }

  /** What one transaction makes of a session: a login starts one for thirty days, exchanging its newest token prolongs it to thirty
      days from then, and it is ended by an exchange of an older token, a logout with any of its tokens, its revocation by its user,
      the user's revoking others, a password reset and the user's deletion. Nothing else touches it. */
  ghost predicate ActiveNext(s: State, op: Op, user: Ulid, family: Ulid, t: int) {
    match op
    case DoLogin(u, f, _, _, now) =>
      if f == family then u == user && user !in s.deleted && t < now + THIRTY_DAYS else SessionActive(s, user, family, t)
    case DoRefresh(presented, _, _, now) =>
      if IsNewest(s, presented, family) && SessionActive(s, user, family, now) then t < now + THIRTY_DAYS
      else SessionActive(s, user, family, t) && !IsSpent(s, presented, family)
    case DoLogout(presented, _) => SessionActive(s, user, family, t) && !OfFamily(s, presented, family)
    case DoRevokeSession(u, f, _) => SessionActive(s, user, family, t) && !(u == user && f == family)
    case DoRevokeOthers(u, keep, _) => SessionActive(s, user, family, t) && !(u == user && keep != family)
    case DoReset(u, _) => SessionActive(s, user, family, t) && u != user
    case DoDelete(u) => SessionActive(s, user, family, t) && u != user
  }

  /** Revoking rows ends the sessions they belong to and no other. */
  lemma ActiveAfterRevoking(s: State, n: State, target: Target, now: int, reason: Reason, user: Ulid, family: Ulid, t: int)
    requires Revoked(s, n, target, now, reason)
    ensures SessionActive(n, user, family, t) <==> SessionActive(s, user, family, t) && !Hits(target, user, family)
  {
    ActiveMeans(s, user, family, t);
    ActiveMeans(n, user, family, t);
    forall x ensures IsLive(n, x, user, family, t) <==> IsLive(s, x, user, family, t) && !Hits(target, user, family) {}
  }

  lemma LoginStarts(s: State, u: Ulid, f: Ulid, id: Ulid, raw: Ulid, now: int, user: Ulid, family: Ulid, t: int)
    requires id !in s.rows && forall x :: x in s.rows ==> s.rows[x].family != f
    ensures SessionActive(Login(s, u, f, id, raw, now), user, family, t) <==> ActiveNext(s, DoLogin(u, f, id, raw, now), user, family, t)
  {
    var n := Login(s, u, f, id, raw, now);
    ActiveMeans(s, user, family, t);
    ActiveMeans(n, user, family, t);
    assert IsLive(n, id, user, family, t) <==> u == user && f == family && t < now + THIRTY_DAYS;
    forall x | x != id ensures IsLive(n, x, user, family, t) <==> IsLive(s, x, user, family, t) {}
    forall x ensures !IsLive(s, x, user, f, t) {}
  }

  lemma LogoutEnds(s: State, presented: Ulid, now: int, user: Ulid, family: Ulid, t: int)
    requires Valid(s)
    ensures SessionActive(Logout(s, presented, now), user, family, t) <==> ActiveNext(s, DoLogout(presented, now), user, family, t)
  {
    if x :| IsOf(s.rows, x, presented) {
      Presented(s, presented, x, family);
      LogoutRevokesOnly(s, presented, x, now);
      ActiveAfterRevoking(s, Logout(s, presented, now), WholeFamily(s.rows[x].family), now, LoggedOut, user, family, t);
    } else {
      LogoutRevokesOnly(s, presented, presented, now);
    }
  }

  /** Marking the tip and issuing its successor. */
  lemma RotationProlongs(s: State, x: Ulid, id: Ulid, raw: Ulid, now: int, user: Ulid, family: Ulid, t: int)
    requires IsTip(s, x) && s.rows[x].revoked.None? && id !in s.rows
    ensures SessionActive(Rotate(s, x, id, raw, now), user, family, t) <==>
              if family == s.rows[x].family then user == s.rows[x].user && user !in s.deleted && t < now + THIRTY_DAYS
              else SessionActive(s, user, family, t)
  {
    var n := Rotate(s, x, id, raw, now);
    ActiveMeans(s, user, family, t);
    ActiveMeans(n, user, family, t);
    assert IsLive(n, id, user, family, t) <==> user == s.rows[x].user && family == s.rows[x].family && t < now + THIRTY_DAYS;
    forall y | y != id ensures IsLive(n, y, user, family, t) <==> IsLive(s, y, user, family, t) && y != x {}
    assert IsLive(s, x, user, family, t) ==> family == s.rows[x].family;
  }

  lemma RefreshMoves(s: State, presented: Ulid, id: Ulid, raw: Ulid, now: int, user: Ulid, family: Ulid, t: int)
    requires Valid(s) && NewToken(s, id, raw)
    ensures var op := DoRefresh(presented, id, raw, now); SessionActive(Apply(s, op), user, family, t) <==> ActiveNext(s, op, user, family, t)
  {
    if x :| IsOf(s.rows, x, presented) {
      Presented(s, presented, x, family);
      RefreshMovesRow(s, presented, x, id, raw, now, user, family, t);
    }
  }

  lemma RefreshMovesRow(s: State, presented: Ulid, x: Ulid, id: Ulid, raw: Ulid, now: int, user: Ulid, family: Ulid, t: int)
    requires Find(s.rows, presented) == Some(x) && id !in s.rows
    requires IsNewest(s, presented, family) ==> s.rows[x].family == family && IsTip(s, x)
    requires s.rows[x].revoked.None? ==> IsTip(s, x) && IsNewest(s, presented, s.rows[x].family)
    requires IsSpent(s, presented, family) <==> s.rows[x].family == family && IsRotated(s.rows[x]) && s.rows[x].user !in s.deleted
    ensures var op := DoRefresh(presented, id, raw, now); SessionActive(Apply(s, op), user, family, t) <==> ActiveNext(s, op, user, family, t)
  {
    var (n, r) := Refresh(s, presented, id, raw, now);
    if s.rows[x].family == family && IsTip(s, x) { ActiveByTip(s, x, user, now); }
    if r.Renewed? {
      RotationProlongs(s, x, id, raw, now, user, family, t);
      if s.rows[x].family == family { ActiveByTip(s, x, user, t); }
    } else if r.Reused? {
      assert Revoked(s, n, WholeFamily(s.rows[x].family), now, ReuseDetected);
      ActiveAfterRevoking(s, n, WholeFamily(s.rows[x].family), now, ReuseDetected, user, family, t);
    }
  }

  lemma LoginMoves(s: State, u: Ulid, f: Ulid, id: Ulid, raw: Ulid, now: int, user: Ulid, family: Ulid, t: int)
    requires Chained(s) && id !in s.rows && f !in s.chains
    ensures SessionActive(Login(s, u, f, id, raw, now), user, family, t) <==> ActiveNext(s, DoLogin(u, f, id, raw, now), user, family, t)
  {
    LoginStarts(s, u, f, id, raw, now, user, family, t);
  }

  lemma RevocationEnds(s: State, u: Ulid, f: Ulid, now: int, user: Ulid, family: Ulid, t: int)
    ensures SessionActive(RevokeSession(s, u, f, now), user, family, t) <==> SessionActive(s, user, family, t) && !(u == user && f == family)
    ensures SessionActive(RevokeOthers(s, u, f, now), user, family, t) <==> SessionActive(s, user, family, t) && !(u == user && f != family)
    ensures SessionActive(ResetPassword(s, u, now), user, family, t) <==> SessionActive(s, user, family, t) && u != user
  {
    RevokesOnly(s, u, f, now);
    ActiveAfterRevoking(s, RevokeSession(s, u, f, now), OneSession(u, f), now, LoggedOut, user, family, t);
    ActiveAfterRevoking(s, RevokeOthers(s, u, f, now), OtherSessions(u, f), now, LoggedOut, user, family, t);
    ActiveAfterRevoking(s, ResetPassword(s, u, now), AllOf(u), now, PasswordReset, user, family, t);
  }

  lemma DeletionEnds(s: State, u: Ulid, user: Ulid, family: Ulid, t: int)
    ensures SessionActive(Apply(s, DoDelete(u)), user, family, t) <==> SessionActive(s, user, family, t) && u != user
  {
    var n := Apply(s, DoDelete(u));
    ActiveMeans(s, user, family, t);
    ActiveMeans(n, user, family, t);
    forall x ensures IsLive(n, x, user, family, t) <==> IsLive(s, x, user, family, t) {}
  }

  /** Which sessions are active after a transaction, for every session and every time. */
  lemma SessionAfter(s: State, op: Op, user: Ulid, family: Ulid, t: int)
    requires Valid(s) && Legal(s, op)
    ensures SessionActive(Apply(s, op), user, family, t) <==> ActiveNext(s, op, user, family, t)
  {
    match op
    case DoLogin(u, f, id, raw, now) => LoginMoves(s, u, f, id, raw, now, user, family, t);
    case DoRefresh(presented, id, raw, now) => RefreshMoves(s, presented, id, raw, now, user, family, t);
    case DoLogout(presented, now) => LogoutEnds(s, presented, now, user, family, t);
    case DoRevokeSession(u, f, now) => RevocationEnds(s, u, f, now, user, family, t);
    case DoRevokeOthers(u, keep, now) => RevocationEnds(s, u, keep, now, user, family, t);
    case DoReset(u, now) => RevocationEnds(s, u, u, now, user, family, t);
    case DoDelete(u) => DeletionEnds(s, u, user, family, t);
  }

  // ---- runs ----

  /** The step ends the session, if it was not over before. */
  ghost predicate Ends(s: State, op: Op, user: Ulid, family: Ulid) {
    match op
    case DoLogin(_, _, _, _, _) => false
    case DoRefresh(presented, _, _, _) => IsSpent(s, presented, family)
    case DoLogout(presented, _) => OfFamily(s, presented, family)
    case DoRevokeSession(u, f, _) => u == user && f == family
    case DoRevokeOthers(u, keep, _) => u == user && keep != family
    case DoReset(u, _) => u == user
    case DoDelete(u) => u == user
  }

  ghost predicate NeverEnded(s: State, ops: seq<Op>, user: Ulid, family: Ulid)
    decreases |ops|
  {
    ops == [] || (NeverEnded(s, ops[..|ops| - 1], user, family) && !Ends(Run(s, ops[..|ops| - 1]), ops[|ops| - 1], user, family))
  }

  /** How long the session was prolonged to: thirty days from the last exchange of its newest token that found it active. */
  ghost function Expiry(s: State, ops: seq<Op>, user: Ulid, family: Ulid, start: int): int
    decreases |ops|
  {
    if ops == [] then start
    else
      var front, op := ops[..|ops| - 1], ops[|ops| - 1];
      var before := Expiry(s, front, user, family, start);
      if op.DoRefresh? && IsNewest(Run(s, front), op.presented, family) && op.now < before then op.now + THIRTY_DAYS else before
  }

  /** The session is active before `until` and not from then on. */
  ghost predicate ActiveUntil(s: State, user: Ulid, family: Ulid, until: int) {
    forall t :: SessionActive(s, user, family, t) <==> t < until
  }

  ghost predicate Over(s: State, user: Ulid, family: Ulid) {
    forall t :: !SessionActive(s, user, family, t)
  }

  /** After any run a session started by a login is active until thirty days after its last exchange if nothing ended it, and over
      otherwise, whatever happens to other sessions. */
  lemma {:induction false} SessionRuns(s: State, ops: seq<Op>, user: Ulid, family: Ulid, start: int)
    requires Valid(s) && LegalRun(s, ops) && family in s.chains && ActiveUntil(s, user, family, start)
    ensures var n := Run(s, ops);
            if NeverEnded(s, ops, user, family) then ActiveUntil(n, user, family, Expiry(s, ops, user, family, start))
            else Over(n, user, family)
    decreases |ops|
  {
    if ops != [] {
      var n := |ops| - 1;
      LegalPrefix(s, ops);
      RunKeepsValid(s, ops[..n]);
      SessionRuns(s, ops[..n], user, family, start);
      ChainsRun(s, ops[..n], family);
      OneMoreStep(Run(s, ops[..n]), ops[n], user, family, Expiry(s, ops[..n], user, family, start), NeverEnded(s, ops[..n], user, family));
    }
  }

  lemma {:induction false} ChainsRun(s: State, ops: seq<Op>, family: Ulid)
    requires family in s.chains
    ensures family in Run(s, ops).chains
    decreases |ops|
  {
    if ops != [] {
      ChainsRun(s, ops[..|ops| - 1], family);
      ChainsStay(Run(s, ops[..|ops| - 1]), ops[|ops| - 1], family);
    }
  }

  lemma OneMoreStep(s: State, op: Op, user: Ulid, family: Ulid, until: int, alive: bool)
    requires Valid(s) && Legal(s, op) && family in s.chains
    requires if alive then ActiveUntil(s, user, family, until) else Over(s, user, family)
    ensures var after := if op.DoRefresh? && IsNewest(s, op.presented, family) && op.now < until then op.now + THIRTY_DAYS else until;
            if alive && !Ends(s, op, user, family) then ActiveUntil(Apply(s, op), user, family, after)
            else Over(Apply(s, op), user, family)
  {
    forall t ensures SessionActive(Apply(s, op), user, family, t) <==> ActiveNext(s, op, user, family, t) {
      SessionAfter(s, op, user, family, t);
    }
    if op.DoRefresh? { SpentIsOver(s, op.presented, user, family, op.now); }
  }

  /** An exchanged token is not the newest of its family. */
  lemma SpentIsOver(s: State, presented: Ulid, user: Ulid, family: Ulid, now: int)
    requires Valid(s)
    ensures !(IsSpent(s, presented, family) && IsNewest(s, presented, family))
  {
    if IsNewest(s, presented, family) {
      var x := s.chains[family][|s.chains[family]| - 1];
      assert IsChain(s.rows, family, s.chains[family]);
      Presented(s, presented, x, family);
    }
  }

  /** A login starts a session of thirty days. */
  lemma LoginLasts(s: State, user: Ulid, family: Ulid, id: Ulid, raw: Ulid, now: int)
    requires Valid(s) && Legal(s, DoLogin(user, family, id, raw, now)) && user !in s.deleted
    ensures ActiveUntil(Login(s, user, family, id, raw, now), user, family, now + THIRTY_DAYS)
  {
    forall t ensures SessionActive(Login(s, user, family, id, raw, now), user, family, t) <==> t < now + THIRTY_DAYS {
      SessionAfter(s, DoLogin(user, family, id, raw, now), user, family, t);
    }
  }
}
