/** Bearer sessions: the user_sessions table, the redis cache in front of it, and every operation that can
    make a cached answer wrong. Tokens are represented by their hash, which is also the cache key. */
module Sessions {
  import opened Common

  datatype UserStatus = Active | Suspended

  datatype User = User(email: string, status: UserStatus, roles: set<string>)

  datatype Session = Session(
    id: string,
    userId: string,
    expiresAt: int,
    revokedAt: Option<int>,
    impersonatedBy: Option<string>)

  datatype Auth = Auth(
    userId: string,
    email: string,
    roles: set<string>,
    sessionId: string,
    impersonated: bool,
    impersonatedBy: string)

  datatype Entry = Entry(auth: Auth, until: int)

  datatype Verdict = Accepted(auth: Auth) | Unauthorized | Forbidden

  datatype State = State(
    now: int,
    ttl: int,
    users: map<string, User>,
    sessions: map<string, Session>,
    cache: map<string, Entry>)

  const IMPERSONATION_MS := 1_800_000

  function ToAuth(user: User, session: Session): Auth {
    var admin := if session.impersonatedBy.Some? then session.impersonatedBy.value else "";
    Auth(session.userId, user.email, user.roles, session.id, admin != "", admin)
  }

  // -------------------------------------------------------------------- reading

  function CacheGet(cache: map<string, Entry>, hash: string, now: int): Option<Auth> {
    if hash in cache && now < cache[hash].until then Some(cache[hash].auth) else None
  }

  /** A zero time to live means the cache is off, never that entries live for ever. */
  function CacheSet(cache: map<string, Entry>, hash: string, auth: Auth, now: int, ttl: int): map<string, Entry> {
    if ttl <= 0 then cache else cache[hash := Entry(auth, now + ttl)]
  }

  predicate IsActive(session: Session, now: int) {
    session.revokedAt.None? && now < session.expiresAt
  }

  /** The answer straight from the database. */
  function DbVerify(s: State, hash: string): Verdict {
    if hash !in s.sessions || !IsActive(s.sessions[hash], s.now) then Unauthorized
    else
      var session := s.sessions[hash];
      if session.userId !in s.users then Unauthorized
      else if s.users[session.userId].status != Active then Forbidden
      else Accepted(ToAuth(s.users[session.userId], session))
  }

  /** The answer a request gets: the cache first. */
  function Answer(s: State, hash: string): Verdict {
    var hit := CacheGet(s.cache, hash, s.now);
    if hit.Some? then Accepted(hit.value) else DbVerify(s, hash)
  }

  function Verified(s: State, hash: string): State {
    if CacheGet(s.cache, hash, s.now).Some? then s
    else match DbVerify(s, hash)
         case Accepted(auth) => s.(cache := CacheSet(s.cache, hash, auth, s.now, s.ttl))
         case _ => s
  }

  // ----------------------------------------------------------------- operations

  function RevokedById(sessions: map<string, Session>, id: string, now: int): map<string, Session> {
    map h | h in sessions ::
      if sessions[h].id == id && sessions[h].revokedAt.None? then sessions[h].(revokedAt := Some(now)) else sessions[h]
  }

  function LiveHashes(sessions: map<string, Session>, userId: string): set<string> {
    set h | h in sessions && sessions[h].userId == userId && sessions[h].revokedAt.None?
  }

  function RevokedForUser(sessions: map<string, Session>, userId: string, now: int): map<string, Session> {
    map h | h in sessions ::
      if h in LiveHashes(sessions, userId) then sessions[h].(revokedAt := Some(now)) else sessions[h]
  }

  /** revokeAllSessions: revoke in the database, evict exactly the hashes that revoked. */
  function RevokedAll(s: State, userId: string): State {
    s.(sessions := RevokedForUser(s.sessions, userId, s.now), cache := s.cache - LiveHashes(s.sessions, userId))
  }

  datatype Op =
    | Tick(now: int)
    | Register(userId: string, user: User)
    | Verify(hash: string)
    | Login(userId: string, hash: string, id: string, lifetime: nat)
    | Impersonate(actorId: string, userId: string, hash: string, id: string)
    | Logout(id: string, hash: string)
    | RevokeSession(userId: string, hash: string)
    | ChangePassword(userId: string)
    | SetRoles(userId: string, roles: set<string>)
    | SetStatus(userId: string, status: UserStatus)

  ghost predicate FreshSession(s: State, hash: string, id: string) {
    hash !in s.sessions && forall h :: h in s.sessions ==> s.sessions[h].id != id
  }

  ghost predicate Enabled(s: State, op: Op) {
    match op
    case Tick(now) => s.now <= now
    case Register(userId, _) => userId !in s.users
    case Verify(_) => true
    case Login(userId, hash, id, _) =>
      userId in s.users && s.users[userId].status == Active && FreshSession(s, hash, id)
    case Impersonate(actorId, userId, hash, id) =>
      userId in s.users && actorId != userId && actorId != "" && FreshSession(s, hash, id)
    case Logout(id, hash) => hash in s.sessions && s.sessions[hash].id == id
    case RevokeSession(userId, hash) => hash in s.sessions && s.sessions[hash].userId == userId
    case ChangePassword(userId) => userId in s.users
    case SetRoles(userId, _) => userId in s.users
    case SetStatus(userId, _) => userId in s.users
  }

  function Apply(s: State, op: Op): State {
    match op
    case Tick(now) => s.(now := now)
    case Register(userId, user) => s.(users := s.users[userId := user])
    case Verify(hash) => Verified(s, hash)
    case Login(userId, hash, id, lifetime) =>
      s.(sessions := s.sessions[hash := Session(id, userId, s.now + lifetime, None, None)])
    case Impersonate(actorId, userId, hash, id) =>
      s.(sessions := s.sessions[hash := Session(id, userId, s.now + IMPERSONATION_MS, None, Some(actorId))])
    case Logout(id, hash) =>
      s.(sessions := RevokedById(s.sessions, id, s.now), cache := s.cache - {hash})
    case RevokeSession(_, hash) =>
      if hash in s.sessions
      then s.(sessions := RevokedById(s.sessions, s.sessions[hash].id, s.now), cache := s.cache - {hash})
      else s
    case ChangePassword(userId) => RevokedAll(s, userId)
    case SetRoles(userId, roles) =>
      if userId in s.users
      then RevokedAll(s.(users := s.users[userId := s.users[userId].(roles := roles)]), userId)
      else s
    case SetStatus(userId, status) =>
      if userId !in s.users then s
      else
        var t := s.(users := s.users[userId := s.users[userId].(status := status)]);
        if status == Suspended then RevokedAll(t, userId) else t
  }

  ghost predicate Legal(s: State, ops: seq<Op>)
    decreases |ops|
  {
    ops == [] || (Enabled(s, ops[0]) && Legal(Apply(s, ops[0]), ops[1..]))
  }

  ghost function Exec(s: State, ops: seq<Op>): State
    requires Legal(s, ops)
    decreases |ops|
  {
    if ops == [] then s else Exec(Apply(s, ops[0]), ops[1..])
  }

  // --------------------------------------------------- the cache never lies

  ghost predicate EntryOk(s: State, hash: string) {
    CacheGet(s.cache, hash, s.now).Some? ==>
      && hash in s.sessions && s.sessions[hash].revokedAt.None?
      && s.sessions[hash].userId in s.users && s.users[s.sessions[hash].userId].status == Active
      && s.cache[hash].auth == ToAuth(s.users[s.sessions[hash].userId], s.sessions[hash])
      && s.cache[hash].until < s.sessions[hash].expiresAt + s.ttl
  }

  ghost predicate Coherent(s: State) {
    && (forall h :: EntryOk(s, h))
    && (forall g, h :: g in s.sessions && h in s.sessions && s.sessions[g].id == s.sessions[h].id ==> g == h)
  }

  lemma EntryOkStep(s: State, op: Op, hash: string)
    requires Coherent(s) && Enabled(s, op)
    ensures EntryOk(Apply(s, op), hash)
  {
    assert EntryOk(s, hash);
    match op
    case Logout(id, h) => assert hash in s.sessions && s.sessions[hash].id == id ==> hash == h;
    case RevokeSession(_, h) => assert hash in s.sessions && s.sessions[hash].id == s.sessions[h].id ==> hash == h;
    case _ =>
  }

  lemma CoherentStep(s: State, op: Op)
    requires Coherent(s) && Enabled(s, op)
    ensures Coherent(Apply(s, op))
  {
    forall h ensures EntryOk(Apply(s, op), h) { EntryOkStep(s, op, h); }
  }

  lemma {:induction false} CoherentRun(s: State, ops: seq<Op>)
    requires Coherent(s) && Legal(s, ops)
    ensures Coherent(Exec(s, ops))
    decreases |ops|
  {
    if ops != [] {
      CoherentStep(s, ops[0]);
      CoherentRun(Apply(s, ops[0]), ops[1..]);
    }
  }

  function Empty(now: int, ttl: int): State {
    State(now, ttl, map[], map[], map[])
  }

  /** After any sequence of operations the cached answer is the database's answer, exactly unless the entry
      outlived its session: the one disagreement is a session already past expiry but still cached, and even
      that ends within the time to live. */
  lemma CacheAgreesIff(now: int, ttl: int, ops: seq<Op>, hash: string)
    requires Legal(Empty(now, ttl), ops)
    ensures var s := Exec(Empty(now, ttl), ops);
            && (Answer(s, hash) == DbVerify(s, hash) <==>
                  !(CacheGet(s.cache, hash, s.now).Some? && hash in s.sessions && s.sessions[hash].expiresAt <= s.now))
            && (Answer(s, hash).Accepted? ==> hash in s.sessions && s.now < s.sessions[hash].expiresAt + Max(0, ttl))
  {
    CoherentRun(Empty(now, ttl), ops);
    TtlKept(Empty(now, ttl), ops);
    assert EntryOk(Exec(Empty(now, ttl), ops), hash);
  }

  lemma {:induction false} TtlKept(s: State, ops: seq<Op>)
    requires Legal(s, ops)
    ensures Exec(s, ops).ttl == s.ttl
    decreases |ops|
  {
    if ops != [] {
      TtlKept(Apply(s, ops[0]), ops[1..]);
    }
  }

  /** With the cache switched off nothing is ever cached. */
  lemma {:induction false} OffMeansOff(s: State, ops: seq<Op>)
    requires Legal(s, ops) && s.ttl <= 0 && s.cache == map[]
    ensures Exec(s, ops).cache == map[]
    decreases |ops|
  {
    if ops != [] {
      OffMeansOff(Apply(s, ops[0]), ops[1..]);
    }
  }

  ghost predicate SameIdentity(a: State, b: State) {
    forall h :: h in a.sessions ==> h in b.sessions && b.sessions[h].id == a.sessions[h].id
  }

  lemma {:induction false} IdentityKept(s: State, ops: seq<Op>)
    requires Legal(s, ops)
    ensures SameIdentity(s, Exec(s, ops))
    decreases |ops|
  {
    if ops != [] {
      IdentityKept(Apply(s, ops[0]), ops[1..]);
    }
  }

  /** Logout carries the session id its own request was verified with; whenever it runs, the token it evicts
      is that session's, so afterwards the token is refused at once. */
  lemma LogoutEvictsTheRightKey(now: int, ttl: int, before: seq<Op>, hash: string, between: seq<Op>)
    requires Legal(Empty(now, ttl), before) && Answer(Exec(Empty(now, ttl), before), hash).Accepted?
    requires Legal(Exec(Empty(now, ttl), before), between)
    ensures var id := Answer(Exec(Empty(now, ttl), before), hash).auth.sessionId;
            var s := Exec(Exec(Empty(now, ttl), before), between);
            Enabled(s, Logout(id, hash)) && Answer(Apply(s, Logout(id, hash)), hash) == Unauthorized
  {
    CoherentRun(Empty(now, ttl), before);
    assert EntryOk(Exec(Empty(now, ttl), before), hash);
    IdentityKept(Exec(Empty(now, ttl), before), between);
  }

  /** Suspending, changing roles and changing a password refuse every token the user held before. */
  lemma RevokeAllRefusesAtOnce(now: int, ttl: int, ops: seq<Op>, op: Op, hash: string)
    requires Legal(Empty(now, ttl), ops)
    requires var s := Exec(Empty(now, ttl), ops);
             && Enabled(s, op) && hash in s.sessions
             && ((op.ChangePassword? && op.userId == s.sessions[hash].userId)
                 || (op.SetRoles? && op.userId == s.sessions[hash].userId)
                 || (op.SetStatus? && op.status == Suspended && op.userId == s.sessions[hash].userId))
    ensures var s := Exec(Empty(now, ttl), ops);
            !Answer(Apply(s, op), hash).Accepted?
  {
    CoherentRun(Empty(now, ttl), ops);
    assert EntryOk(Exec(Empty(now, ttl), ops), hash);
    CoherentStep(Exec(Empty(now, ttl), ops), op);
    assert EntryOk(Apply(Exec(Empty(now, ttl), ops), op), hash);
  }

  // ------------------------------------------------- what an answer stands for

  /** An unrevoked session that has not expired. */
  predicate IsLive(s: State, hash: string) {
    hash in s.sessions && s.sessions[hash].revokedAt == None && s.now < s.sessions[hash].expiresAt
  }

  predicate OwnedBy(s: State, hash: string, status: UserStatus) {
    hash in s.sessions && s.sessions[hash].userId in s.users && s.users[s.sessions[hash].userId].status == status
  }

  /** The database accepts exactly the live sessions of active users, forbids exactly those of suspended ones,
      and knows nothing of any other token. */
  lemma DatabaseAnswers(s: State, hash: string)
    ensures DbVerify(s, hash).Accepted? <==> IsLive(s, hash) && OwnedBy(s, hash, Active)
    ensures DbVerify(s, hash).Forbidden? <==> IsLive(s, hash) && OwnedBy(s, hash, Suspended)
    ensures DbVerify(s, hash).Unauthorized? <==> !IsLive(s, hash) || s.sessions[hash].userId !in s.users
  {
  }

  /** The identity stands for the session and its user as they are in the tables right now. */
  predicate Describes(auth: Auth, s: State, hash: string) {
    && hash in s.sessions && s.sessions[hash].userId in s.users
    && var session := s.sessions[hash];
       var user := s.users[session.userId];
       && auth.userId == session.userId && auth.sessionId == session.id
       && auth.email == user.email && auth.roles == user.roles
       && (auth.impersonated <==> session.impersonatedBy.Some? && session.impersonatedBy.value != "")
       && auth.impersonatedBy == (if auth.impersonated then session.impersonatedBy.value else "")
  }

  /** In every reachable state an accepted request, cached or not, gets the identity of its session's user:
      that user's email and roles as they stand now, and the impersonating admin exactly when there is one. */
  lemma AcceptedMeans(now: int, ttl: int, ops: seq<Op>, hash: string)
    requires Legal(Empty(now, ttl), ops) && Answer(Exec(Empty(now, ttl), ops), hash).Accepted?
    ensures Describes(Answer(Exec(Empty(now, ttl), ops), hash).auth, Exec(Empty(now, ttl), ops), hash)
  {
    CoherentRun(Empty(now, ttl), ops);
    assert EntryOk(Exec(Empty(now, ttl), ops), hash);
  }

  /** A login is good for its lifetime, as its own user; an impersonation for half an hour, as the target and in
      the admin's name. Neither touches another session or the cache. */
  lemma IssuedSessions(s: State, op: Op, later: int, other: string)
    requires Enabled(s, op) && (op.Login? || op.Impersonate?) && s.now <= later
    requires s.users[op.userId].status == Active
    ensures var t := Apply(s, op);
            var end := s.now + (if op.Login? then op.lifetime else 1_800_000);
            var verdict := DbVerify(t.(now := later), op.hash);
            && (verdict.Accepted? <==> later < end)
            && (verdict.Accepted? ==>
                  && verdict.auth.userId == op.userId && verdict.auth.sessionId == op.id
                  && verdict.auth.email == s.users[op.userId].email && verdict.auth.roles == s.users[op.userId].roles
                  && (verdict.auth.impersonated <==> op.Impersonate?)
                  && (op.Impersonate? ==> verdict.auth.impersonatedBy == op.actorId))
            && t.cache == s.cache && t.users == s.users
            && (other in s.sessions ==> other in t.sessions && t.sessions[other] == s.sessions[other])
  {
  }

  /** Which user an operation withdraws every session of. */
  function WithdrawnUser(op: Op): Option<string> {
    match op
    case ChangePassword(userId) => Some(userId)
    case SetRoles(userId, _) => Some(userId)
    case SetStatus(userId, status) => if status == Suspended then Some(userId) else None
    case _ => None
  }

  /** What a revocation does to one token: it is stamped now, and its cache entry goes, if it was unrevoked and
      is the session named or one of the user's; a token revoked before keeps its stamp, and nobody else's
      token or cache entry is touched. */
  lemma RevocationTouches(s: State, op: Op, hash: string)
    requires Coherent(s) && Enabled(s, op) && hash in s.sessions
    requires op.Logout? || op.RevokeSession? || WithdrawnUser(op).Some?
    ensures var t := Apply(s, op);
            var meant := if op.Logout? || op.RevokeSession? then hash == op.hash
                         else s.sessions[hash].userId == WithdrawnUser(op).value;
            && hash in t.sessions
            && t.sessions[hash] == (if meant && s.sessions[hash].revokedAt.None?
                                    then s.sessions[hash].(revokedAt := Some(s.now)) else s.sessions[hash])
            && (meant && s.sessions[hash].revokedAt.None? ==> hash !in t.cache)
            && (!meant ==> (hash in t.cache <==> hash in s.cache)
                           && (hash in s.cache ==> t.cache[hash] == s.cache[hash]))
  {
  }

  /** Verifying caches an acceptance for the time to live, and nothing else; a hit changes nothing. */
  lemma VerifyCaches(s: State, hash: string, other: string)
    ensures var t := Verified(s, hash);
            var hit := hash in s.cache && s.now < s.cache[hash].until;
            && t.sessions == s.sessions && t.users == s.users && t.now == s.now
            && (other != hash ==> (other in t.cache <==> other in s.cache)
                                  && (other in s.cache ==> t.cache[other] == s.cache[other]))
            && (hit || !DbVerify(s, hash).Accepted? || s.ttl <= 0 ==> t == s)
            && (!hit && DbVerify(s, hash).Accepted? && 0 < s.ttl ==>
                  hash in t.cache && t.cache[hash] == Entry(DbVerify(s, hash).auth, s.now + s.ttl))
            && Answer(s, hash) == (if hit then Accepted(s.cache[hash].auth) else DbVerify(s, hash))
  {
  }
}
