/** The auth service over its refresh_tokens table. Each method is one transaction, proved to be the transition of module
    RefreshTokens and to tell exactly the sessions it revoked. */
module RefreshStore {
  import opened Common
  import opened RefreshTokens
  import RefreshRuns

  /** There is only one row to find. */
  lemma OneRow(s: State, raw: Ulid, found: Option<Ulid>)
    requires RawsUnique(s)
    requires if found.Some? then IsOf(s.rows, found.value, raw) else forall id :: !IsOf(s.rows, id, raw)
    ensures found == Find(s.rows, raw)
  {
  }

  class Service {
    var rows: Table
    var deleted: set<Ulid>
    /** Families whose revocation was published, in order. */
    var told: seq<Ulid>
    ghost var st: State

    ghost predicate Valid()
      reads this
    {
      RawsUnique(st) && rows == st.rows && deleted == st.deleted
    }

    constructor ()
      ensures Valid() && st == INITIAL && told == []
    {
      rows, deleted, told, st := map[], {}, [], INITIAL;
    }

    method Lookup(raw: Ulid) returns (found: Option<Ulid>)
      requires Valid()
      ensures found == Find(rows, raw)
    {
      found := Scan(rows, raw);
      OneRow(st, raw, found);
    }

    /** SELECT by the unique token hash. */
    static method Scan(rows: Table, raw: Ulid) returns (found: Option<Ulid>)
      ensures found.Some? ==> IsOf(rows, found.value, raw)
      ensures found.None? ==> forall id :: !IsOf(rows, id, raw)
    {
      found := None;
      var todo := rows.Keys;
      while todo != {} && found.None?
        invariant found.None? ==> forall id :: IsOf(rows, id, raw) ==> id in todo
        invariant found.Some? ==> IsOf(rows, found.value, raw)
        decreases |todo|
      {
        var id :| id in todo;
        todo := todo - {id};
        if id in rows && rows[id].raw == raw { found := Some(id); }
      }
    }

    /** A new session, by login or registration. */
    method Login(user: Ulid, family: Ulid, id: Ulid, raw: Ulid, now: int)
      requires Valid() && Legal(st, DoLogin(user, family, id, raw, now))
      modifies this`rows, this`st
      ensures Valid() && st == RefreshTokens.Login(old(st), user, family, id, raw, now)
    {
      RefreshRuns.ApplyKeepsRaws(st, DoLogin(user, family, id, raw, now));
      rows := rows[id := Token(user, family, raw, None, now + LIFETIME, None)];
      st := RefreshTokens.Login(st, user, family, id, raw, now);
    }

    /** Refresh: rotate, or refuse, or revoke the whole family of a token that was rotated before. */
    method Refresh(presented: Ulid, id: Ulid, raw: Ulid, now: int) returns (r: Outcome)
      requires Valid() && NewToken(st, id, raw)
      modifies this
      ensures Valid() && (st, r) == RefreshTokens.Refresh(old(st), presented, id, raw, now)
      ensures told == old(told) + if r.Reused? && LiveOfFamily(old(rows), r.family) != {} then [r.family] else []
    {
      RefreshRuns.ApplyKeepsRaws(st, DoRefresh(presented, id, raw, now));
      ghost var next := RefreshTokens.Refresh(st, presented, id, raw, now);
      var found := Lookup(presented);
      r := Refused;
      if found.Some? && rows[found.value].user !in deleted {
        r := Exchange(found.value, id, raw, now);
      }
      st := next.0;
    }

    /** What Refresh does with the row it found. */
    method Exchange(found: Ulid, id: Ulid, raw: Ulid, now: int) returns (r: Outcome)
      requires found in rows
      modifies this`rows, this`told
      ensures var t := old(rows)[found];
              if t.revoked.Some? && t.revoked.value.reason == Rotated then
                && r == Reused(t.family) && rows == Revoke(old(rows), LiveOfFamily(old(rows), t.family), now, ReuseDetected)
                && told == old(told) + if LiveOfFamily(old(rows), t.family) != {} then [t.family] else []
              else if t.revoked.Some? || now >= t.expires then r == Refused && rows == old(rows) && told == old(told)
              else
                && r == Renewed(t.family) && told == old(told)
                && rows == old(rows)[found := t.(revoked := Some(Revocation(now, Rotated)))]
                                    [id := Token(t.user, t.family, raw, Some(found), now + LIFETIME, None)]
    {
      var t := rows[found];
      r := Refused;
      if t.revoked.Some? {
        if t.revoked.value.reason == Rotated {
          RevokeFamily(t.family, now, ReuseDetected);
          r := Reused(t.family);
        }
      } else if now < t.expires {
        rows := rows[found := t.(revoked := Some(Revocation(now, Rotated)))];
        rows := rows[id := Token(t.user, t.family, raw, Some(found), now + LIFETIME, None)];
        r := Renewed(t.family);
      }
    }

    /** RevokeRefreshTokenFamily, published if it hit a row. */
    method RevokeFamily(family: Ulid, now: int, reason: Reason)
      modifies this`rows, this`told
      ensures rows == Revoke(old(rows), LiveOfFamily(old(rows), family), now, reason)
      ensures told == old(told) + if LiveOfFamily(old(rows), family) != {} then [family] else []
    {
      var hit := LiveOfFamily(rows, family);
      rows := Revoke(rows, hit, now, reason);
      if |hit| > 0 {
        told := told + [family];
      }
    }

    method Logout(presented: Ulid, now: int)
      requires Valid()
      modifies this
      ensures Valid() && st == RefreshTokens.Logout(old(st), presented, now)
    {
      RefreshRuns.ApplyKeepsRaws(st, DoLogout(presented, now));
      ghost var next := RefreshTokens.Logout(st, presented, now);
      var found := Lookup(presented);
      if found.Some? {
        RevokeFamily(rows[found.value].family, now, LoggedOut);
      }
      st := next;
    }

    /** RevokeSession: false for a session that is somebody else's or over. */
    method RevokeSession(user: Ulid, family: Ulid, now: int) returns (ok: bool)
      requires Valid()
      modifies this
      ensures Valid() && st == RefreshTokens.RevokeSession(old(st), user, family, now)
      ensures ok <==> exists id :: id in old(rows) && old(rows)[id].user == user && old(rows)[id].family == family && old(rows)[id].revoked.None?
      ensures told == old(told) + if ok then [family] else []
    {
      RefreshRuns.ApplyKeepsRaws(st, DoRevokeSession(user, family, now));
      var hit := LiveOfSession(rows, user, family);
      ok := |hit| > 0;
      assert forall id :: id in hit <==> id in rows && rows[id].user == user && rows[id].family == family && rows[id].revoked.None?;
      assert ok <==> exists id :: id in hit;
      rows := Revoke(rows, hit, now, LoggedOut);
      st := RefreshTokens.RevokeSession(st, user, family, now);
      if ok {
        told := told + [family];
      }
    }

    /** RevokeOtherSessions: the families of the rows hit are folded, each is told once, and their number is returned. */
    method RevokeOtherSessions(user: Ulid, keep: Ulid, now: int) returns (count: nat, families: seq<Ulid>)
      requires Valid()
      modifies this
      ensures Valid() && st == RefreshTokens.RevokeOthers(old(st), user, keep, now)
      ensures Distinct(families) && count == |families| && told == old(told) + families
      ensures forall f :: f in families <==>
                f != keep && exists id :: id in old(rows) && old(rows)[id].user == user && old(rows)[id].family == f && old(rows)[id].revoked.None?
    {
      RefreshRuns.ApplyKeepsRaws(st, DoRevokeOthers(user, keep, now));
      var hit := LiveElsewhere(rows, user, keep);
      families := Fold(hit);
      count := |families|;
      rows := Revoke(rows, hit, now, LoggedOut);
      st := RefreshTokens.RevokeOthers(st, user, keep, now);
      told := told + families;
    }

    /** The loop over the returned rows: a family seen before is skipped. */
    method Fold(hit: set<Ulid>) returns (families: seq<Ulid>)
      requires hit <= rows.Keys
      ensures Distinct(families)
      ensures forall f :: f in families <==> exists id :: id in hit && rows[id].family == f
    {
      families := [];
      var seen: set<Ulid> := {};
      var todo := hit;
      while todo != {}
        invariant todo <= hit && Distinct(families) && Elements(families) == seen
        invariant forall f :: f in seen <==> exists id :: id in hit - todo && rows[id].family == f
        decreases |todo|
      {
        var id :| id in todo;
        var f := rows[id].family;
        assert forall x :: x in hit - (todo - {id}) <==> x in hit - todo || x == id;
        todo := todo - {id};
        if f !in seen {
          DistinctMore(families, f);
          assert Elements(families + [f]) == Elements(families) + {f};
          seen := seen + {f};
          families := families + [f];
        }
      }
      assert forall f :: f in families <==> f in Elements(families);
    }

    /** ResetPassword, as far as sessions go: all of the user's are revoked. */
    method ResetPassword(user: Ulid, now: int)
      requires Valid()
      modifies this`rows, this`st
      ensures Valid() && st == RefreshTokens.ResetPassword(old(st), user, now)
    {
      RefreshRuns.ApplyKeepsRaws(st, DoReset(user, now));
      rows := Revoke(rows, LiveOfUser(rows, user), now, PasswordReset);
      st := RefreshTokens.ResetPassword(st, user, now);
    }

    method SessionActive(user: Ulid, family: Ulid, now: int) returns (active: bool)
      requires Valid()
      ensures active <==> RefreshTokens.SessionActive(st, user, family, now)
    {
      var live := LiveOfSession(rows, user, family);
      active := user !in deleted && exists id :: id in live && rows[id].expires > now;
    }
  }
}
