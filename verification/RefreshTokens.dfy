/** Refresh-token families: the table and the transactions on it, each one atomic step.

    A raw token stands for its hash, which is unique in the table. `chains` lists, for every family, the ids its tokens were
    issued under, oldest first; no transaction reads it. */
module RefreshTokens {
  import opened Common

  datatype Reason = Rotated | LoggedOut | ReuseDetected | PasswordReset

  datatype Revocation = Revocation(at: int, reason: Reason)

  datatype Token = Token(user: Ulid, family: Ulid, raw: Ulid, rotatedFrom: Option<Ulid>, expires: int, revoked: Option<Revocation>)

  type Table = map<Ulid, Token>

  /** `accepted` lists the raw tokens Refresh exchanged for a new one, in order. */
  datatype State = State(rows: Table, deleted: set<Ulid>, chains: map<Ulid, seq<Ulid>>, accepted: seq<Ulid>)

  const INITIAL := State(map[], {}, map[], [])

  datatype Outcome = Refused | Reused(family: Ulid) | Renewed(family: Ulid)

  // ---- the statements ----

  /** An UPDATE that revokes the chosen rows. */
  function Revoke(rows: Table, chosen: set<Ulid>, now: int, reason: Reason): Table {
    map id | id in rows :: if id in chosen then rows[id].(revoked := Some(Revocation(now, reason))) else rows[id]
  }

  function LiveOfFamily(rows: Table, family: Ulid): set<Ulid> {
    set id | id in rows && rows[id].family == family && rows[id].revoked.None?
  }

  function LiveOfUser(rows: Table, user: Ulid): set<Ulid> {
    set id | id in rows && rows[id].user == user && rows[id].revoked.None?
  }

  function LiveOfSession(rows: Table, user: Ulid, family: Ulid): set<Ulid> {
    set id | id in rows && rows[id].user == user && rows[id].family == family && rows[id].revoked.None?
  }

  function LiveElsewhere(rows: Table, user: Ulid, keep: Ulid): set<Ulid> {
    set id | id in rows && rows[id].user == user && rows[id].family != keep && rows[id].revoked.None?
  }

  ghost predicate IsOf(rows: Table, id: Ulid, raw: Ulid) {
    id in rows && rows[id].raw == raw
  }

  /** The row of a raw token. */
  ghost function Find(rows: Table, raw: Ulid): (r: Option<Ulid>)
    ensures r.Some? ==> IsOf(rows, r.value, raw)
    ensures r.None? ==> forall id :: !IsOf(rows, id, raw)
  {
    if id :| IsOf(rows, id, raw) then Some(id) else None
  }

  // ---- the transactions ----

  const LIFETIME := 30 * 24 * 3600

  /** startSession of a new family, by login or registration. */
  function Login(s: State, user: Ulid, family: Ulid, id: Ulid, raw: Ulid, now: int): State {
    s.(rows := s.rows[id := Token(user, family, raw, None, now + LIFETIME, None)], chains := s.chains[family := [id]])
  }

  /** Marking the presented token rotated and issuing its successor. */
  function Rotate(s: State, spent: Ulid, id: Ulid, raw: Ulid, now: int): State
    requires spent in s.rows
  {
    var t := s.rows[spent];
    var marked := s.rows[spent := t.(revoked := Some(Revocation(now, Rotated)))];
    s.(rows := marked[id := Token(t.user, t.family, raw, Some(spent), now + LIFETIME, None)],
       chains := s.chains[t.family := (if t.family in s.chains then s.chains[t.family] else []) + [id]],
       accepted := s.accepted + [t.raw])
  }

  ghost function Refresh(s: State, presented: Ulid, id: Ulid, raw: Ulid, now: int): (State, Outcome) {
    var found := Find(s.rows, presented);
    if found.None? || s.rows[found.value].user in s.deleted then (s, Refused)
    else
      var t := s.rows[found.value];
      if t.revoked.Some? then
        if t.revoked.value.reason == Rotated
        then (s.(rows := Revoke(s.rows, LiveOfFamily(s.rows, t.family), now, ReuseDetected)), Reused(t.family))
        else (s, Refused)
      else if now >= t.expires then (s, Refused)
      else (Rotate(s, found.value, id, raw, now), Renewed(t.family))
  }

  ghost function Logout(s: State, presented: Ulid, now: int): State {
    var found := Find(s.rows, presented);
    if found.None? then s
    else s.(rows := Revoke(s.rows, LiveOfFamily(s.rows, s.rows[found.value].family), now, LoggedOut))
  }

  function RevokeSession(s: State, user: Ulid, family: Ulid, now: int): State {
    s.(rows := Revoke(s.rows, LiveOfSession(s.rows, user, family), now, LoggedOut))
  }

  function RevokeOthers(s: State, user: Ulid, keep: Ulid, now: int): State {
    s.(rows := Revoke(s.rows, LiveElsewhere(s.rows, user, keep), now, LoggedOut))
  }

  function ResetPassword(s: State, user: Ulid, now: int): State {
    s.(rows := Revoke(s.rows, LiveOfUser(s.rows, user), now, PasswordReset))
  }

  ghost predicate SessionActive(s: State, user: Ulid, family: Ulid, now: int) {
    exists id :: id in LiveOfSession(s.rows, user, family) && s.rows[id].expires > now && user !in s.deleted
  }

  datatype Op =
    | DoLogin(user: Ulid, family: Ulid, id: Ulid, raw: Ulid, now: int)
    | DoRefresh(presented: Ulid, id: Ulid, raw: Ulid, now: int)
    | DoLogout(presented: Ulid, now: int)
    | DoRevokeSession(user: Ulid, family: Ulid, now: int)
    | DoRevokeOthers(user: Ulid, keep: Ulid, now: int)
    | DoReset(user: Ulid, now: int)
    | DoDelete(user: Ulid)

  ghost function Apply(s: State, op: Op): State {
    match op
    case DoLogin(user, family, id, raw, now) => Login(s, user, family, id, raw, now)
    case DoRefresh(presented, id, raw, now) => Refresh(s, presented, id, raw, now).0
    case DoLogout(presented, now) => Logout(s, presented, now)
    case DoRevokeSession(user, family, now) => RevokeSession(s, user, family, now)
    case DoRevokeOthers(user, keep, now) => RevokeOthers(s, user, keep, now)
    case DoReset(user, now) => ResetPassword(s, user, now)
    case DoDelete(user) => s.(deleted := s.deleted + {user})
  }

  /** Ids and raw tokens are new when they are issued, and so is the family of a login. */
  ghost predicate Legal(s: State, op: Op) {
    match op
    case DoLogin(_, family, id, raw, _) => NewToken(s, id, raw) && family !in s.chains
    case DoRefresh(_, id, raw, _) => NewToken(s, id, raw)
    case _ => true
  }

  ghost predicate NewToken(s: State, id: Ulid, raw: Ulid) {
    id !in s.rows && forall x :: !IsOf(s.rows, x, raw)
  }

  ghost function Run(s: State, ops: seq<Op>): State
    decreases |ops|
  {
    if ops == [] then s else Apply(Run(s, ops[..|ops| - 1]), ops[|ops| - 1])
  }

  ghost predicate LegalRun(s: State, ops: seq<Op>) {
    forall i :: 0 <= i < |ops| ==> Legal(Run(s, ops[..i]), ops[i])
  }

  // ---- the invariant ----

  /** The ids of a chain are rows of the family and of one user, each rotated from the one before; all but the last are rotated. */
  ghost predicate IsChain(rows: Table, family: Ulid, chain: seq<Ulid>) {
    && chain != [] && Distinct(chain)
    && (forall k :: 0 <= k < |chain| ==> chain[k] in rows)
    && (forall k :: 0 <= k < |chain| ==> rows[chain[k]].family == family && rows[chain[k]].user == rows[chain[0]].user)
    && rows[chain[0]].rotatedFrom == None
    && (forall k :: 0 < k < |chain| ==> rows[chain[k]].rotatedFrom == Some(chain[k - 1]))
    && (forall k :: 0 <= k < |chain| - 1 ==> IsRotated(rows[chain[k]]))
    && !IsRotated(rows[chain[|chain| - 1]])
  }

  predicate IsRotated(t: Token) {
    t.revoked.Some? && t.revoked.value.reason == Rotated
  }

  ghost predicate Chained(s: State) {
    && (forall f :: f in s.chains ==> IsChain(s.rows, f, s.chains[f]))
    && (forall id :: id in s.rows ==> s.rows[id].family in s.chains && id in s.chains[s.rows[id].family])
  }

  ghost predicate RawsUnique(s: State) {
    forall a, b :: a in s.rows && b in s.rows && s.rows[a].raw == s.rows[b].raw ==> a == b
  }

  /** A token is accepted once and is a rotated one from then on. */
  ghost predicate AcceptedRotated(s: State) {
    && Distinct(s.accepted)
    && (forall raw :: raw in s.accepted ==> WasRotated(s, raw))
  }

  ghost predicate WasRotated(s: State, raw: Ulid) {
    exists id :: IsOf(s.rows, id, raw) && IsRotated(s.rows[id])
  }

  ghost predicate Valid(s: State) {
    Chained(s) && RawsUnique(s) && AcceptedRotated(s)
  }
}
