/** The session operations as they are written: rows updated in place, cache entries set and deleted. */
module SessionStore {
  import opened Common
  import opened Sessions

  ghost function HashSet(hashes: seq<string>): set<string> {
    set h | h in hashes
  }

  datatype Edit = NoSuchUser | NoSuchRole | Edited

  function FoundRoles(requested: seq<string>, known: set<string>): set<string> {
    set r | r in requested && r in known
  }

  ghost predicate AllRoles(requested: seq<string>, known: set<string>) {
    && (forall i :: 0 <= i < |requested| ==> requested[i] in known)
    && (forall i, j :: 0 <= i < j < |requested| ==> requested[i] != requested[j])
  }

  lemma AllRolesSplit(requested: seq<string>, known: set<string>)
    requires requested != []
    ensures var before, last := requested[..|requested| - 1], requested[|requested| - 1];
            AllRoles(requested, known) <==> AllRoles(before, known) && last in known && last !in before
  {
    var n := |requested| - 1;
    if AllRoles(requested[..n], known) && requested[n] in known && requested[n] !in requested[..n] {
      forall i | 0 <= i < n ensures requested[i] in known && requested[i] != requested[n] {
        assert requested[..n][i] == requested[i];
      }
    }
    if requested[n] in requested[..n] {
      var i :| 0 <= i < n && requested[..n][i] == requested[n];
      assert requested[i] == requested[n];
    }
    if AllRoles(requested, known) {
      assert forall i :: 0 <= i < n ==> requested[..n][i] == requested[i];
    }
  }

  lemma FoundRolesSplit(requested: seq<string>, known: set<string>)
    requires requested != []
    ensures var before, last := requested[..|requested| - 1], requested[|requested| - 1];
            && FoundRoles(requested, known) == FoundRoles(before, known) + (if last in known then {last} else {})
            && HashSet(requested) == HashSet(before) + {last}
            && (last in FoundRoles(before, known) <==> last in before && last in known)
  {
    var n := |requested| - 1;
    assert requested == requested[..n] + [requested[n]];
  }

  /** Comparing the two counts is the test "all known and none twice". */
  lemma {:induction false} FoundRolesCount(requested: seq<string>, known: set<string>)
    ensures |FoundRoles(requested, known)| <= |requested|
    ensures |FoundRoles(requested, known)| == |requested| <==> AllRoles(requested, known)
    ensures AllRoles(requested, known) ==> FoundRoles(requested, known) == HashSet(requested)
    decreases |requested|
  {
    if requested != [] {
      FoundRolesCount(requested[..|requested| - 1], known);
      FoundRolesSplit(requested, known);
      AllRolesSplit(requested, known);
    }
  }

  class Store {
    const ttl: int
    var users: map<string, User>
    var sessions: map<string, Session>
    var cache: map<string, Entry>

    constructor (ttl: int)
      ensures this.ttl == ttl && At(0) == Empty(0, ttl)
    {
      this.ttl := ttl;
      users := map[];
      sessions := map[];
      cache := map[];
    }

    /** The abstract state at a moment. */
    function At(now: int): State
      reads this
    {
      State(now, ttl, users, sessions, cache)
    }

    method CacheSetEntry(hash: string, auth: Auth, now: int)
      modifies this`cache
      ensures cache == CacheSet(old(cache), hash, auth, now, ttl)
      ensures cache == if 0 < ttl then old(cache)[hash := Entry(auth, now + ttl)] else old(cache)
    {
      if ttl <= 0 {
        return;
      }
      cache := cache[hash := Entry(auth, now + ttl)];
    }

    /** Delete fills the list of keys and removes them in one command. */
    method CacheDelete(hashes: seq<string>)
      modifies this`cache
      ensures cache == old(cache) - HashSet(hashes)
    {
      if |hashes| == 0 {
        return;
      }
      var keys: set<string> := {};
      for i := 0 to |hashes|
        invariant keys == HashSet(hashes[..i])
      {
        assert hashes[..i + 1] == hashes[..i] + [hashes[i]];
        keys := keys + {hashes[i]};
      }
      assert hashes[..|hashes|] == hashes;
      cache := cache - keys;
    }

    method Revoke(id: string, now: int)
      modifies this`sessions
      ensures sessions == RevokedById(old(sessions), id, now)
      ensures sessions.Keys == old(sessions).Keys
      ensures forall h :: h in sessions ==>
                            sessions[h] == if old(sessions)[h].id == id && old(sessions)[h].revokedAt == None
                                           then old(sessions)[h].(revokedAt := Some(now)) else old(sessions)[h]
    {
      sessions := map h | h in sessions ::
        if sessions[h].id == id && sessions[h].revokedAt.None? then sessions[h].(revokedAt := Some(now))
        else sessions[h];
    }

    /** Reads the sessions it is about to revoke, revokes them, and returns their hashes. */
    method RevokeAllForUser(userId: string, now: int) returns (hashes: seq<string>)
      modifies this`sessions
      ensures sessions == RevokedForUser(old(sessions), userId, now)
      ensures HashSet(hashes) == LiveHashes(old(sessions), userId)
      ensures forall h :: h in hashes <==>
                            && h in old(sessions) && old(sessions)[h].userId == userId
                            && old(sessions)[h].revokedAt == None
      ensures sessions.Keys == old(sessions).Keys
      ensures forall h :: h in sessions ==>
                            sessions[h] == if h in hashes then old(sessions)[h].(revokedAt := Some(now))
                                           else old(sessions)[h]
    {
      var found := LiveHashes(sessions, userId);
      hashes := [];
      if found == {} {
        assert RevokedForUser(sessions, userId, now) == sessions;
        assert forall h :: h in sessions ==> h !in found;
        return;
      }
      sessions := RevokedForUser(sessions, userId, now);
      var rest := found;
      while rest != {}
        invariant rest <= found
        invariant HashSet(hashes) == found - rest
        decreases rest
      {
        var h :| h in rest;
        var longer := hashes + [h];
        assert HashSet(longer) == HashSet(hashes) + {h};
        hashes := longer;
        rest := rest - {h};
      }
      assert forall h :: h in hashes <==> h in HashSet(hashes);
    }

    method Verify(hash: string, now: int) returns (verdict: Verdict)
      modifies this`cache
      ensures verdict == Answer(old(At(now)), hash)
      ensures At(now) == Verified(old(At(now)), hash)
    {
      if hash in cache && now < cache[hash].until {
        return Accepted(cache[hash].auth);
      }
      if hash !in sessions || sessions[hash].revokedAt.Some? || sessions[hash].expiresAt <= now {
        return Unauthorized;
      }
      var session := sessions[hash];
      if session.userId !in users {
        return Unauthorized;
      }
      var user := users[session.userId];
      if user.status != Active {
        return Forbidden;
      }
      var auth := ToAuth(user, session);
      CacheSetEntry(hash, auth, now);
      verdict := Accepted(auth);
    }

    method Logout(id: string, hash: string, now: int)
      modifies this`sessions, this`cache
      ensures At(now) == Apply(old(At(now)), Op.Logout(id, hash))
    {
      Revoke(id, now);
      CacheDelete([hash]);
      assert HashSet([hash]) == {hash};
    }

    method RevokeAllSessions(userId: string, now: int)
      modifies this`sessions, this`cache
      ensures At(now) == RevokedAll(old(At(now)), userId)
    {
      var hashes := RevokeAllForUser(userId, now);
      CacheDelete(hashes);
    }

    method SetUserStatus(userId: string, status: UserStatus, now: int) returns (found: bool)
      modifies this
      ensures found <==> userId in old(users)
      ensures At(now) == Apply(old(At(now)), Op.SetStatus(userId, status))
      ensures users == if found then old(users)[userId := old(users)[userId].(status := status)] else old(users)
    {
      if userId !in users {
        return false;
      }
      users := users[userId := users[userId].(status := status)];
      if status == Suspended {
        RevokeAllSessions(userId, now);
      }
      found := true;
    }

    /** The admin edit: roles are replaced only if every requested slug finds a role of its own. */
    method UpdateUser(userId: string, requested: Option<seq<string>>, known: set<string>, now: int)
      returns (result: Edit)
      modifies this
      ensures result == NoSuchUser <==> userId !in old(users)
      ensures result == NoSuchRole <==> userId in old(users) && requested.Some? && !AllRoles(requested.value, known)
      ensures At(now) == if result == Edited && requested.Some?
                         then Apply(old(At(now)), Op.SetRoles(userId, HashSet(requested.value)))
                         else old(At(now))
      ensures users == if result == Edited && requested.Some?
                       then old(users)[userId := old(users)[userId].(roles := HashSet(requested.value))] else old(users)
    {
      if userId !in users {
        return NoSuchUser;
      }
      if requested.None? {
        return Edited;
      }
      var found := FoundRoles(requested.value, known);
      FoundRolesCount(requested.value, known);
      if |found| != |requested.value| {
        return NoSuchRole;
      }
      users := users[userId := users[userId].(roles := found)];
      RevokeAllSessions(userId, now);
      result := Edited;
    }

    /** Profile edit and password reset: only a new password touches the sessions. */
    method ChangePassword(userId: string, password: string, now: int) returns (found: bool)
      modifies this`sessions, this`cache
      ensures found <==> userId in users
      ensures At(now) == if found && password != "" then Apply(old(At(now)), Op.ChangePassword(userId))
                         else old(At(now))
    {
      if userId !in users {
        return false;
      }
      if password != "" {
        RevokeAllSessions(userId, now);
      }
      found := true;
    }

    /** Another device: the evicted key is read from the row, so it is the revoked session's own. */
    method RevokeSession(id: string, userId: string, now: int) returns (found: bool)
      requires forall g, h :: g in sessions && h in sessions && sessions[g].id == sessions[h].id ==> g == h
      modifies this`sessions, this`cache
      ensures found <==>
                exists h :: h in old(sessions) && old(sessions)[h].id == id && old(sessions)[h].userId == userId
      ensures forall h :: h in old(sessions) && old(sessions)[h].id == id && old(sessions)[h].userId == userId ==>
                            At(now) == Apply(old(At(now)), Op.RevokeSession(userId, h))
      ensures !found ==> At(now) == old(At(now))
    {
      var hits := set h | h in sessions && sessions[h].id == id && sessions[h].userId == userId;
      assert forall h :: h in hits <==> h in sessions && sessions[h].id == id && sessions[h].userId == userId;
      if hits == {} {
        return false;
      }
      var hash :| hash in hits;
      Revoke(sessions[hash].id, now);
      CacheDelete([hash]);
      assert HashSet([hash]) == {hash};
      found := true;
    }

    method IssueSession(userId: string, hash: string, id: string, now: int, lifetime: nat)
      modifies this`sessions
      ensures sessions == old(sessions)[hash := Session(id, userId, now + lifetime, None, None)]
    {
      sessions := sessions[hash := Session(id, userId, now + lifetime, None, None)];
    }

    /** Issued like a login, then shortened and marked in the same transaction. */
    method Impersonate(actorId: string, actorImpersonates: bool, userId: string, hash: string, id: string, now: int,
                       lifetime: nat)
      returns (issued: bool)
      modifies this`sessions
      ensures issued <==> actorId != userId && !actorImpersonates && userId in users
      ensures issued ==> At(now) == Apply(old(At(now)), Op.Impersonate(actorId, userId, hash, id))
      ensures issued ==> sessions == old(sessions)[hash := Session(id, userId, now + 1_800_000, None, Some(actorId))]
      ensures !issued ==> sessions == old(sessions)
    {
      if actorId == userId || actorImpersonates || userId !in users {
        return false;
      }
      IssueSession(userId, hash, id, now, lifetime);
      var session := sessions[hash];
      session := session.(expiresAt := now + IMPERSONATION_MS, impersonatedBy := Some(actorId));
      sessions := sessions[hash := session];
      issued := true;
    }
  }
}
