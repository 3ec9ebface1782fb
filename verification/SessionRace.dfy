/** The window a revoked session has left when the steps of Verify interleave with its revocation: the cache
    lookup, the database read and the cache write are separate. */
module SessionRace {
  import opened Common

  /** A request being verified: it missed the cache, or found the row active at some moment, or is over. */
  datatype Request = Missed | Found(at: int) | Over

  /** One session: its row, its cache entry's end, the requests in flight, and when it was accepted. */
  datatype State = State(
    now: int,
    expiresAt: int,
    revokedAt: Option<int>,
    cachedUntil: Option<int>,
    requests: seq<Request>,
    accepted: seq<int>)

  datatype Label =
    | Lookup(at: int)
    | Read(i: nat, at: int)
    | Store(i: nat, at: int)
    | Revoke(at: int)
    | Evict(at: int)

  predicate Cached(s: State, at: int) {
    s.cachedUntil.Some? && at < s.cachedUntil.value
  }

  predicate Enabled(s: State, l: Label) {
    && s.now <= l.at
    && (l.Read? ==> l.i < |s.requests| && s.requests[l.i].Missed?)
    && (l.Store? ==> l.i < |s.requests| && s.requests[l.i].Found?)
  }

  function Apply(s: State, l: Label, ttl: int): State
    requires Enabled(s, l)
  {
    var t := s.(now := l.at);
    match l
    case Lookup(at) =>
      if Cached(s, at) then t.(accepted := s.accepted + [at]) else t.(requests := s.requests + [Missed])
    case Read(i, at) =>
      var active := s.revokedAt.None? && at < s.expiresAt;
      t.(requests := s.requests[i := if active then Found(at) else Over])
    case Store(i, at) =>
      t.(requests := s.requests[i := Over],
         cachedUntil := if ttl <= 0 then s.cachedUntil else Some(at + ttl),
         accepted := s.accepted + [at])
    case Revoke(at) => if s.revokedAt.None? then t.(revokedAt := Some(at)) else t
    case Evict(_) => t.(cachedUntil := None)
  }

  /** No request takes longer than `longest` from its database read to its return. */
  predicate InTime(s: State, l: Label, longest: nat)
    requires Enabled(s, l)
  {
    l.Store? ==> l.at <= s.requests[l.i].at + longest
  }

  ghost predicate Legal(s: State, tr: seq<Label>, ttl: int, longest: nat)
    decreases |tr|
  {
    tr == [] ||
    (Enabled(s, tr[0]) && InTime(s, tr[0], longest) && Legal(Apply(s, tr[0], ttl), tr[1..], ttl, longest))
  }

  ghost function Exec(s: State, tr: seq<Label>, ttl: int, longest: nat): State
    requires Legal(s, tr, ttl, longest)
    decreases |tr|
  {
    if tr == [] then s else Exec(Apply(s, tr[0], ttl), tr[1..], ttl, longest)
  }

  function Issued(now: int, expiresAt: int): State {
    State(now, expiresAt, None, None, [], [])
  }

  // --------------------------------------------------------------- the bound

  /** The end of the last answer, direct or from the cache, a request that read the row by `end` can cause. */
  predicate Within(t: int, end: int, ttl: int, longest: nat) {
    if ttl <= 0 then t <= end + longest else t < end + longest + ttl
  }

  ghost predicate Inv(s: State, ttl: int, longest: nat) {
    && (forall i :: 0 <= i < |s.requests| && s.requests[i].Found? ==>
          s.requests[i].at <= s.now && s.requests[i].at < s.expiresAt)
    && (forall t :: t in s.accepted ==> t <= s.now && t < s.expiresAt + longest + Max(0, ttl))
    && (s.cachedUntil.Some? ==>
          0 < ttl && s.cachedUntil.value < s.expiresAt + longest + ttl && s.cachedUntil.value <= s.now + ttl)
    && (s.revokedAt.Some? ==>
          var v := s.revokedAt.value;
          && v <= s.now
          && (forall i :: 0 <= i < |s.requests| && s.requests[i].Found? ==> s.requests[i].at <= v)
          && (s.cachedUntil.Some? ==> s.cachedUntil.value <= v + longest + ttl)
          && (forall t :: t in s.accepted ==> Within(t, v, ttl, longest)))
  }

  lemma InvStep(s: State, l: Label, ttl: int, longest: nat)
    requires Inv(s, ttl, longest) && Enabled(s, l) && InTime(s, l, longest)
    ensures Inv(Apply(s, l, ttl), ttl, longest)
  {
    var t := Apply(s, l, ttl);
    assert forall a :: a in t.accepted ==> a in s.accepted || a == l.at;
  }

  lemma {:induction false} InvRun(s: State, tr: seq<Label>, ttl: int, longest: nat)
    requires Inv(s, ttl, longest) && Legal(s, tr, ttl, longest)
    ensures Inv(Exec(s, tr, ttl, longest), ttl, longest)
    decreases |tr|
  {
    if tr != [] {
      InvStep(s, tr[0], ttl, longest);
      InvRun(Apply(s, tr[0], ttl), tr[1..], ttl, longest);
    }
  }

  /** However lookups, reads, cache writes, revocation and eviction interleave: with the cache on, a session
      revoked at v is not accepted at or after v + TTL + the longest request, with the cache off not after
      v + the longest request; and no session is accepted at or after its expiry plus the same slack. */
  lemma RevocationTakesEffect(now: int, expiresAt: int, tr: seq<Label>, ttl: int, longest: nat, t: int)
    requires Legal(Issued(now, expiresAt), tr, ttl, longest)
    requires t in Exec(Issued(now, expiresAt), tr, ttl, longest).accepted
    ensures var s := Exec(Issued(now, expiresAt), tr, ttl, longest);
            && t < expiresAt + longest + Max(0, ttl)
            && (s.revokedAt.Some? ==> Within(t, s.revokedAt.value, ttl, longest))
  {
    InvRun(Issued(now, expiresAt), tr, ttl, longest);
    ExpiryKept(Issued(now, expiresAt), tr, ttl, longest);
  }

  lemma {:induction false} ExpiryKept(s: State, tr: seq<Label>, ttl: int, longest: nat)
    requires Legal(s, tr, ttl, longest)
    ensures Exec(s, tr, ttl, longest).expiresAt == s.expiresAt
    decreases |tr|
  {
    if tr != [] {
      ExpiryKept(Apply(s, tr[0], ttl), tr[1..], ttl, longest);
    }
  }

  // ------------------------------------------------- when it is immediate

  /** A request that found the row active and still has time to answer. */
  ghost predicate CanAnswer(s: State, i: int, longest: nat) {
    0 <= i < |s.requests| && s.requests[i].Found? && s.now <= s.requests[i].at + longest
  }

  ghost predicate Accepts(s: State, tr: seq<Label>, ttl: int, longest: nat) {
    Legal(s, tr, ttl, longest) && |s.accepted| < |Exec(s, tr, ttl, longest).accepted|
  }

  lemma {:induction false} RefusedFromNowOn(s: State, tr: seq<Label>, ttl: int, longest: nat)
    requires s.revokedAt.Some? && s.cachedUntil.None? && forall i :: !CanAnswer(s, i, longest)
    requires Legal(s, tr, ttl, longest)
    ensures Exec(s, tr, ttl, longest).accepted == s.accepted
    decreases |tr|
  {
    if tr != [] {
      assert tr[0].Store? ==> CanAnswer(s, tr[0].i, longest);
      var t := Apply(s, tr[0], ttl);
      forall i ensures !CanAnswer(t, i, longest) { assert !CanAnswer(s, i, longest); }
      RefusedFromNowOn(t, tr[1..], ttl, longest);
    }
  }

  /** Revoking and evicting refuses the token at once and for good, whatever is verified from then on, if and
      only if no request that read the row before the revocation is still to answer. Requests that missed the
      cache but have not read the row yet do no harm. */
  lemma ImmediateIff(s: State, ttl: int, longest: nat)
    requires s.revokedAt.Some? && s.cachedUntil.None?
    ensures (exists tr :: Accepts(s, tr, ttl, longest)) <==> exists i :: CanAnswer(s, i, longest)
  {
    if exists i :: CanAnswer(s, i, longest) {
      var i :| CanAnswer(s, i, longest);
      var l := Store(i, s.now);
      Prepend(s, l, [], ttl, longest);
      assert Accepts(s, [l] + [], ttl, longest);
    } else {
      forall tr | Legal(s, tr, ttl, longest) ensures !Accepts(s, tr, ttl, longest) {
        RefusedFromNowOn(s, tr, ttl, longest);
      }
    }
  }

  // ------------------------------------------------------- the bound is reached

  lemma Prepend(s: State, l: Label, tr: seq<Label>, ttl: int, longest: nat)
    requires Enabled(s, l) && InTime(s, l, longest) && Legal(Apply(s, l, ttl), tr, ttl, longest)
    ensures Legal(s, [l] + tr, ttl, longest)
    ensures Exec(s, [l] + tr, ttl, longest) == Exec(Apply(s, l, ttl), tr, ttl, longest)
  {
    assert ([l] + tr)[1..] == tr;
  }

  /** Store after the eviction, and look up when the entry is about to end. */
  lemma AnswersLate(s: State, v: int, ttl: int, longest: nat) returns (tr: seq<Label>)
    requires s.now == v && s.requests == [Found(v)] && s.revokedAt == Some(v)
    ensures Legal(s, tr, ttl, longest)
    ensures var t := Exec(s, tr, ttl, longest);
            t.revokedAt == Some(v) && v + longest + Max(0, ttl - 1) in t.accepted
  {
    var l1, l2 := Store(0, v + longest), Lookup(v + longest + Max(0, ttl - 1));
    var s1 := Apply(s, l1, ttl);
    var s2 := Apply(s1, l2, ttl);
    assert v + longest in s1.accepted;
    assert 0 < ttl ==> s2.accepted == s1.accepted + [v + longest + ttl - 1];
    Prepend(s1, l2, [], ttl, longest);
    Prepend(s, l1, [l2] + [], ttl, longest);
    tr := [l1] + ([l2] + []);
  }

  /** The bound is sharp: a request that read the row just before the revocation writes its entry after the
      eviction, and the token is accepted at the last moment the bound allows, cache on or off. */
  lemma RevokedTokenStillAccepted(v: int, expiresAt: int, ttl: int, longest: nat) returns (tr: seq<Label>)
    requires v < expiresAt
    ensures Legal(Issued(v, expiresAt), tr, ttl, longest)
    ensures var s := Exec(Issued(v, expiresAt), tr, ttl, longest);
            var last := v + longest + Max(0, ttl - 1);
            s.revokedAt == Some(v) && last in s.accepted && Within(last, v, ttl, longest)
            && !Within(last + 1, v, ttl, longest)
  {
    var s0 := Issued(v, expiresAt);
    var l0, l1, l2, l3 := Lookup(v), Read(0, v), Revoke(v), Evict(v);
    var s1 := Apply(s0, l0, ttl);
    var s2 := Apply(s1, l1, ttl);
    var s3 := Apply(s2, l2, ttl);
    var rest := AnswersLate(Apply(s3, l3, ttl), v, ttl, longest);
    Prepend(s3, l3, rest, ttl, longest);
    Prepend(s2, l2, [l3] + rest, ttl, longest);
    Prepend(s1, l1, [l2] + ([l3] + rest), ttl, longest);
    Prepend(s0, l0, [l1] + ([l2] + ([l3] + rest)), ttl, longest);
    tr := [l0] + ([l1] + ([l2] + ([l3] + rest)));
  }
}
