/** OAuth renewal across workers: a lock that expires, a second look at the row once it is held, a bounded
    wait for those who did not get it. One account; any number of workers; steps interleave freely. */
module Renewal {
  import opened Common
  import opened Tokens

  /** Where a worker is with the account struct it loaded. */
  datatype Worker =
    | Idle
    | Loaded(account: Account, loadedAt: int)
    | Waiting(account: Account, loadedAt: int, tries: nat)
    | Critical(account: Account, loadedAt: int, acquiredAt: int)
    | Exchanging(account: Account, loadedAt: int, acquiredAt: int)
    | Storing(account: Account, loadedAt: int, acquiredAt: int, answer: Answer, entry: nat)
    | Leaving(account: Account, loadedAt: int, acquiredAt: int)
    | Ready(account: Account)

  /** One exchange with the provider: what was spent, what was stored, and what the provider would accept. */
  datatype Entry = Entry(at: int, spent: string, stored: Account, valid: string, answer: Answer)

  datatype State = State(
    now: int,
    row: Account,
    lock: Option<int>,
    workers: seq<Worker>,
    log: seq<Entry>,
    valid: string)

  datatype Label =
    | Load(w: nat, at: int)
    | Skip(w: nat, at: int)
    | Acquire(w: nat, at: int)
    | Recheck(w: nat, at: int)
    | Exchange(w: nat, at: int, answer: Answer)
    | Save(w: nat, at: int)
    | Release(w: nat, at: int)
    | Await(w: nat, at: int)
    | SaveBack(w: nat, at: int, syncState: string)
    | Finish(w: nat, at: int)

  function Start(now: int, row: Account, n: nat): State {
    State(now, row, None, seq(n, i => Idle), [], row.credentials.refreshToken)
  }

  predicate InCs(w: Worker) {
    w.Critical? || w.Exchanging? || w.Storing? || w.Leaving?
  }

  predicate Enabled(s: State, l: Label) {
    && s.now <= l.at && l.w < |s.workers|
    && var w := s.workers[l.w];
       match l
       case Load(_, _) => w.Idle?
       case Skip(_, at) => w.Loaded? && !NeedsRefresh(w.account, at)
       case Acquire(_, at) => w.Loaded? && NeedsRefresh(w.account, at)
       case Recheck(_, _) => w.Critical?
       case Exchange(_, _, _) => w.Exchanging?
       case Save(_, _) => w.Storing?
       case Release(_, _) => w.Leaving?
       case Await(_, _) => w.Waiting? && w.tries < AWAIT_ATTEMPTS
       case SaveBack(_, _, _) => w.Ready?
       case Finish(_, _) => w.Ready? || w.Loaded?
  }

  function Apply(s: State, l: Label): State
    requires Enabled(s, l)
  {
    var w := s.workers[l.w];
    var t := s.(now := l.at);
    match l
    case Load(i, at) => t.(workers := s.workers[i := Loaded(s.row, at)])
    case Skip(i, _) => t.(workers := s.workers[i := Ready(w.account)])
    case Acquire(i, at) =>
      if s.lock.None? || s.lock.value <= at
      then t.(lock := Some(at + LOCK_TTL_MS), workers := s.workers[i := Critical(w.account, w.loadedAt, at)])
      else t.(workers := s.workers[i := Waiting(w.account, w.loadedAt, 0)])
    case Recheck(i, at) =>
      if !NeedsRefresh(s.row, at)
      then t.(workers := s.workers[i := Leaving(Adopted(w.account, s.row), w.loadedAt, w.acquiredAt)])
      else t.(workers := s.workers[i := Exchanging(w.account, w.loadedAt, w.acquiredAt)])
    case Exchange(i, at, answer) =>
      t.(workers := s.workers[i := Storing(w.account, w.loadedAt, w.acquiredAt, answer, |s.log|)],
         log := s.log + [Entry(at, w.account.credentials.refreshToken, s.row, s.valid, answer)],
         valid := if answer.Granted? && answer.grant.refreshToken != "" then answer.grant.refreshToken else s.valid)
    case Save(i, _) =>
      var saved := match w.answer
                   case Granted(grant) => Renewed(w.account, grant)
                   case Revoked => Parked(w.account)
                   case Unavailable => w.account;
      t.(row := if w.answer.Unavailable? then s.row else saved,
         workers := s.workers[i := Leaving(saved, w.loadedAt, w.acquiredAt)])
    case Release(i, _) => t.(lock := None, workers := s.workers[i := Ready(w.account)])
    case Await(i, at) =>
      if !NeedsRefresh(s.row, at) then t.(workers := s.workers[i := Ready(Adopted(w.account, s.row))])
      else if w.tries + 1 == AWAIT_ATTEMPTS then t.(workers := s.workers[i := Ready(w.account)])
      else t.(workers := s.workers[i := w.(tries := w.tries + 1)])
    case SaveBack(i, _, syncState) =>
      var account := w.account.(syncState := syncState);
      t.(row := account, workers := s.workers[i := Ready(account)])
    case Finish(i, _) => t.(workers := s.workers[i := Idle])
  }

  predicate Legal(s: State, tr: seq<Label>)
    decreases |tr|
  {
    tr == [] || (Enabled(s, tr[0]) && Legal(Apply(s, tr[0]), tr[1..]))
  }

  function Exec(s: State, tr: seq<Label>): State
    requires Legal(s, tr)
    decreases |tr|
  {
    if tr == [] then s else Exec(Apply(s, tr[0]), tr[1..])
  }

  // ---------------------------------------------------------------- assumptions

  predicate SameToken(a: Account, b: Account) {
    a.oauth == b.oauth && a.credentials == b.credentials && a.tokenExpiresAt == b.tokenExpiresAt
  }

  predicate SameRefresh(a: Account, b: Account) {
    a.credentials.refreshToken == b.credentials.refreshToken
  }

  /** What a theorem assumes of the steps of a run: critical sections end inside the lock's time to live; a
      new token outlives the refresh window by more than `margin` when it is stored; nobody spends or stores
      with a struct loaded more than `hold` ago; the provider issues no refresh token twice; and, of a caller
      that saves the struct it resolved, that nobody stored another token since, or something weaker: that the
      refresh token is still the stored one, that the expiry does not go back to before one that is still
      ahead, that the row stays due for whoever is about to exchange, or that no spent token changes. */
  datatype Promise =
    | InsideTtl
    | LongLived(margin: nat)
    | HeldBriefly(hold: nat)
    | NoReissue
    | NotStale
    | TokensCompared
    | ExpiryCompared
    | KeepsDue
    | Harmless(hold: nat)

  /** A worker that may yet spend a copy the row no longer agrees with, once this save is made. */
  ghost predicate LateSpender(s: State, l: Label, hold: nat, u: int)
    requires Enabled(s, l) && l.SaveBack?
  {
    && 0 <= u < |s.workers| && (s.workers[u].Loaded? || s.workers[u].Critical?)
    && !SameRefresh(s.workers[u].account, s.row)
    && var end := s.workers[u].loadedAt + hold;
       && l.at <= end && NeedsRefresh(s.workers[l.w].account, end)
       && (s.workers[u].Loaded? ==> NeedsRefresh(s.workers[u].account, end))
  }

  ghost predicate Holds(s: State, l: Label, p: Promise)
    requires Enabled(s, l)
  {
    var w := s.workers[l.w];
    match p
    case InsideTtl =>
      forall v :: 0 <= v < |s.workers| && InCs(s.workers[v]) ==> l.at < s.workers[v].acquiredAt + LOCK_TTL_MS
    case LongLived(margin) =>
      l.Save? && w.answer.Granted? ==> w.answer.grant.expiresAt > Max(0, l.at + REFRESH_WINDOW_MS + margin)
    case HeldBriefly(hold) => l.Exchange? || l.Save? ==> l.at <= w.loadedAt + hold
    case NoReissue => l.Save? && w.answer.Granted? ==> Unseen(s, w.answer.grant.refreshToken)
    case NotStale => l.SaveBack? ==> SameToken(w.account, s.row)
    case TokensCompared => l.SaveBack? ==> SameRefresh(w.account, s.row)
    case ExpiryCompared => l.SaveBack? ==> NoEarlier(w.account, s.row, l.at)
    case KeepsDue => l.SaveBack? ==> SameToken(w.account, s.row) || !Exchanges(s) || NeedsRefresh(w.account, l.at)
    case Harmless(hold) =>
      l.SaveBack? ==> SameToken(w.account, s.row) ||
                      (SameRefresh(w.account, s.row) && forall u :: !LateSpender(s, l, hold, u))
  }

  /** Saving this account takes back no expiry that is still beyond the window. */
  predicate NoEarlier(a: Account, row: Account, at: int) {
    row.tokenExpiresAt.Some? ==>
      || row.tokenExpiresAt.value <= at + REFRESH_WINDOW_MS
      || (a.tokenExpiresAt.Some? && row.tokenExpiresAt.value <= a.tokenExpiresAt.value)
  }

  /** Somebody is about to call the provider. */
  ghost predicate Exchanges(s: State) {
    exists v :: 0 <= v < |s.workers| && s.workers[v].Exchanging?
  }

  /** No copy of the account holds this refresh token, unless it is the empty one that keeps the old. */
  ghost predicate Unseen(s: State, token: string) {
    token != "" ==>
      && s.row.credentials.refreshToken != token
      && forall v :: 0 <= v < |s.workers| && !s.workers[v].Idle? ==>
           s.workers[v].account.credentials.refreshToken != token
  }

  ghost predicate Always(s: State, tr: seq<Label>, p: Promise)
    requires Legal(s, tr)
    decreases |tr|
  {
    tr == [] || (Holds(s, tr[0], p) && Always(Apply(s, tr[0]), tr[1..], p))
  }

  // ----------------------------------------------------------- mutual exclusion

  ghost predicate Locked(s: State) {
    && (forall v :: 0 <= v < |s.workers| && InCs(s.workers[v]) ==>
          && s.lock == Some(s.workers[v].acquiredAt + LOCK_TTL_MS)
          && s.now < s.workers[v].acquiredAt + LOCK_TTL_MS)
    && (forall v, w :: 0 <= v < |s.workers| && 0 <= w < |s.workers| && InCs(s.workers[v]) && InCs(s.workers[w]) ==>
          v == w)
  }

  lemma LockedStep(s: State, l: Label)
    requires Locked(s) && Enabled(s, l) && Holds(s, l, InsideTtl)
    ensures Locked(Apply(s, l))
  {
    var t := Apply(s, l);
    forall v, w | 0 <= v < |t.workers| && 0 <= w < |t.workers| && InCs(t.workers[v]) && InCs(t.workers[w])
      ensures v == w
    {
      assert v != l.w ==> InCs(s.workers[v]);
      assert w != l.w ==> InCs(s.workers[w]);
    }
  }

  lemma {:induction false} LockedRun(s: State, tr: seq<Label>)
    requires Locked(s) && Legal(s, tr) && Always(s, tr, InsideTtl)
    ensures Locked(Exec(s, tr))
    decreases |tr|
  {
    if tr != [] {
      LockedStep(s, tr[0]);
      LockedRun(Apply(s, tr[0]), tr[1..]);
    }
  }

  /** If critical sections end inside the lock's time to live, no two workers are ever in one, whatever
      anybody saves and however short tokens live. */
  lemma OneRenewerAtATime(now: int, row: Account, n: nat, tr: seq<Label>, v: nat, w: nat)
    requires Legal(Start(now, row, n), tr) && Always(Start(now, row, n), tr, InsideTtl)
    requires v < |Exec(Start(now, row, n), tr).workers| && w < |Exec(Start(now, row, n), tr).workers|
    requires InCs(Exec(Start(now, row, n), tr).workers[v]) && InCs(Exec(Start(now, row, n), tr).workers[w])
    ensures v == w
  {
    LockedRun(Start(now, row, n), tr);
  }

  // ------------------------------------------------- every exchange is called for

  /** Whoever is about to exchange faces a row inside its window, and so did everybody who has. */
  ghost predicate Due(s: State) {
    && Locked(s)
    && (Exchanges(s) ==> NeedsRefresh(s.row, s.now))
    && (forall i :: 0 <= i < |s.log| ==> s.log[i].at <= s.now && DueEntry(s.log[i]))
  }

  predicate DueEntry(e: Entry) {
    NeedsRefresh(e.stored, e.at)
  }

  lemma DueStep(s: State, l: Label)
    requires Due(s) && Enabled(s, l) && Holds(s, l, InsideTtl) && Holds(s, l, KeepsDue)
    ensures Due(Apply(s, l))
  {
    LockedStep(s, l);
    var t := Apply(s, l);
    if v :| 0 <= v < |t.workers| && t.workers[v].Exchanging? {
      assert v != l.w ==> s.workers[v].Exchanging? && !InCs(s.workers[l.w]);
    }
  }

  lemma {:induction false} DueRun(s: State, tr: seq<Label>)
    requires Due(s) && Legal(s, tr) && Always(s, tr, InsideTtl) && Always(s, tr, KeepsDue)
    ensures Due(Exec(s, tr))
    decreases |tr|
  {
    if tr != [] {
      DueStep(s, tr[0]);
      DueRun(Apply(s, tr[0]), tr[1..]);
    }
  }

  /** Under any interleaving every exchange happens while the stored token is inside its window, as long as no
      caller saves a struct that is not due under the hands of somebody about to exchange. */
  lemma EveryExchangeIsDue(now: int, row: Account, n: nat, tr: seq<Label>, i: nat)
    requires Legal(Start(now, row, n), tr)
    requires Always(Start(now, row, n), tr, InsideTtl) && Always(Start(now, row, n), tr, KeepsDue)
    requires i < |Exec(Start(now, row, n), tr).log|
    ensures DueEntry(Exec(Start(now, row, n), tr).log[i])
  {
    DueRun(Start(now, row, n), tr);
  }

  /** A continuation, with no stale save in it, in which an exchange happens although none is called for. */
  ghost predicate WasteTrace(s: State, tr: seq<Label>) {
    && Legal(s, tr) && Always(s, tr, InsideTtl) && Always(s, tr, NotStale)
    && exists i :: 0 <= i < |Exec(s, tr).log| && !DueEntry(Exec(s, tr).log[i])
  }

  /** That assumption is exact, step by step: a save can be followed by an exchange outside the window if and
      only if somebody is about to exchange and the saved struct is not due. */
  lemma SaveWastesIff(s: State, l: Label)
    requires Due(s) && Enabled(s, l) && l.SaveBack? && Holds(s, l, InsideTtl)
    ensures (exists tr :: WasteTrace(Apply(s, l), tr)) <==>
              Exchanges(s) && !NeedsRefresh(s.workers[l.w].account, l.at)
  {
    var t := Apply(s, l);
    if Exchanges(s) && !NeedsRefresh(s.workers[l.w].account, l.at) {
      var v :| 0 <= v < |s.workers| && s.workers[v].Exchanging?;
      var spend := Exchange(v, l.at, Unavailable);
      Prepend(t, spend, [], InsideTtl);
      Prepend(t, spend, [], NotStale);
      assert !DueEntry(Exec(t, [spend] + []).log[|t.log|]);
      assert WasteTrace(t, [spend] + []);
    } else {
      DueStep(s, l);
      forall tr | WasteTrace(t, tr) ensures false {
        NotStaleIs(t, tr, KeepsDue);
        DueRun(t, tr);
      }
    }
  }

  /** A save of a struct nobody outdated meets every weaker promise. */
  lemma {:induction false} NotStaleIs(s: State, tr: seq<Label>, p: Promise)
    requires Legal(s, tr) && Always(s, tr, NotStale) && (p.KeepsDue? || p.ExpiryCompared? || p.Harmless?)
    ensures Always(s, tr, p)
    decreases |tr|
  {
    if tr != [] {
      NotStaleIs(Apply(s, tr[0]), tr[1..], p);
    }
  }

  // ------------------------------------------------ one exchange for each expiry

  predicate PastCheck(w: Worker) {
    w.Exchanging? || w.Storing?
  }

  ghost predicate PendingEntry(s: State, i: int, v: int) {
    0 <= v < |s.workers| && s.workers[v].Storing? && s.workers[v].entry == i
  }

  ghost predicate StoringOk(s: State, v: int)
    requires 0 <= v < |s.workers|
  {
    s.workers[v].Storing? ==>
      s.workers[v].entry < |s.log| && s.log[s.workers[v].entry].answer == s.workers[v].answer
  }

  /** A granted expiry, once stored, has come within the window, or the row still reaches as far and nobody
      is past the second look. */
  ghost predicate EntryOk(s: State, i: int)
    requires 0 <= i < |s.log|
  {
    var e := s.log[i];
    e.answer.Granted? && (forall v :: !PendingEntry(s, i, v)) ==>
      || e.answer.grant.expiresAt <= s.now + REFRESH_WINDOW_MS
      || (&& s.row.tokenExpiresAt.Some? && e.answer.grant.expiresAt <= s.row.tokenExpiresAt.value
          && forall v :: 0 <= v < |s.workers| ==> !PastCheck(s.workers[v]))
  }

  /** The granted exchange j came only when the token granted by i was within the window. */
  ghost predicate PairOk(log: seq<Entry>, i: int, j: int) {
    0 <= i < j < |log| && log[i].answer.Granted? && log[j].answer.Granted? ==>
      log[i].answer.grant.expiresAt <= log[j].at + REFRESH_WINDOW_MS
  }

  ghost predicate Audited(s: State) {
    && Locked(s)
    && (forall v :: 0 <= v < |s.workers| ==> StoringOk(s, v))
    && (forall i :: 0 <= i < |s.log| ==> EntryOk(s, i))
    && (forall i, j :: PairOk(s.log, i, j))
  }

  /** Unless the account cannot be renewed any more, this save leaves every granted expiry covered. */
  ghost predicate Uncovers(s: State, l: Label, i: int)
    requires Enabled(s, l) && l.SaveBack?
  {
    var account := s.workers[l.w].account;
    && 0 <= i < |s.log| && s.log[i].answer.Granted?
    && l.at + REFRESH_WINDOW_MS < s.log[i].answer.grant.expiresAt
    && (account.tokenExpiresAt.Some? ==> account.tokenExpiresAt.value < s.log[i].answer.grant.expiresAt)
  }

  ghost predicate Covered(s: State, l: Label)
    requires Enabled(s, l)
  {
    l.SaveBack? ==> NoEarlier(s.workers[l.w].account, s.row, l.at) || forall i :: !Uncovers(s, l, i)
  }

  lemma EntryOkStep(s: State, l: Label, i: int)
    requires Audited(s) && Enabled(s, l) && Holds(s, l, InsideTtl) && Holds(s, l, LongLived(0)) && Covered(s, l)
    requires 0 <= i < |Apply(s, l).log|
    ensures EntryOk(Apply(s, l), i)
  {
    var t := Apply(s, l);
    assert StoringOk(s, l.w);
    if i == |s.log| {
      assert PendingEntry(t, i, l.w);
    } else {
      assert EntryOk(s, i);
      if l.SaveBack? { assert !Uncovers(s, l, i) || NoEarlier(s.workers[l.w].account, s.row, l.at); }
      if forall v :: !PendingEntry(t, i, v) {
        forall v ensures (l.Save? && v == l.w) || !PendingEntry(s, i, v) {
          assert !PendingEntry(t, i, v);
        }
        if l.Save? {
          assert forall v :: 0 <= v < |t.workers| ==> !PastCheck(t.workers[v]);
        } else {
          assert forall v :: !PendingEntry(s, i, v);
        }
      }
    }
  }

  lemma PairOkStep(s: State, l: Label, i: int, j: int)
    requires Audited(s) && Enabled(s, l)
    ensures PairOk(Apply(s, l).log, i, j)
  {
    assert PairOk(s.log, i, j);
    if 0 <= i < j == |s.log| && l.Exchange? {
      assert EntryOk(s, i);
      forall v ensures !PendingEntry(s, i, v) {}
    }
  }

  lemma AuditedStep(s: State, l: Label)
    requires Audited(s) && Enabled(s, l) && Holds(s, l, InsideTtl) && Holds(s, l, LongLived(0)) && Covered(s, l)
    ensures Audited(Apply(s, l))
  {
    LockedStep(s, l);
    forall v | 0 <= v < |s.workers| ensures StoringOk(Apply(s, l), v) { assert StoringOk(s, v); }
    forall i | 0 <= i < |Apply(s, l).log| ensures EntryOk(Apply(s, l), i) { EntryOkStep(s, l, i); }
    forall i, j ensures PairOk(Apply(s, l).log, i, j) { PairOkStep(s, l, i, j); }
  }

  lemma {:induction false} AuditedRun(s: State, tr: seq<Label>)
    requires Audited(s) && Legal(s, tr)
    requires Always(s, tr, InsideTtl) && Always(s, tr, LongLived(0)) && Always(s, tr, ExpiryCompared)
    ensures Audited(Exec(s, tr))
    decreases |tr|
  {
    if tr != [] {
      AuditedStep(s, tr[0]);
      AuditedRun(Apply(s, tr[0]), tr[1..]);
    }
  }

  /** If critical sections end inside the lock's time to live, new tokens expire beyond the refresh window,
      and callers do not save an earlier expiry over one that is still ahead, N workers make one successful
      exchange for each expiry: the next comes only when the token granted before is within the window. */
  lemma OneExchangePerExpiry(now: int, row: Account, n: nat, tr: seq<Label>, i: nat, j: nat)
    requires Legal(Start(now, row, n), tr)
    requires Always(Start(now, row, n), tr, InsideTtl) && Always(Start(now, row, n), tr, LongLived(0))
    requires Always(Start(now, row, n), tr, ExpiryCompared)
    requires i < j < |Exec(Start(now, row, n), tr).log|
    ensures PairOk(Exec(Start(now, row, n), tr).log, i, j)
  {
    AuditedRun(Start(now, row, n), tr);
  }

  /** A continuation, with no stale save in it, in which two granted exchanges fall into one expiry. */
  ghost predicate DoubleTrace(s: State, tr: seq<Label>) {
    && Legal(s, tr) && Always(s, tr, InsideTtl) && Always(s, tr, LongLived(0)) && Always(s, tr, NotStale)
    && exists i, j :: !PairOk(Exec(s, tr).log, i, j)
  }

  lemma UncoveringDoubles(s: State, l: Label, i: int)
    requires Audited(s) && Quiet(s) && Enabled(s, l) && l.SaveBack?
    requires Renewable(s.workers[l.w].account) && Uncovers(s, l, i)
    ensures exists tr :: DoubleTrace(Apply(s, l), tr)
  {
    var t := Apply(s, l);
    var free := Finish(l.w, t.now);
    var at := Max(t.now, t.row.tokenExpiresAt.value - REFRESH_WINDOW_MS);
    var rest := SpendRound(Apply(t, free), l.w, at, Granted(Grant("", "", 0, "")), 0);
    PrependPrompt(t, free, rest, 0);
    assert !PairOk(Exec(t, [free] + rest).log, i, |t.log|);
    assert DoubleTrace(t, [free] + rest);
  }

  /** The exact condition, between critical sections: a save can be followed by two granted exchanges in one
      expiry if and only if the account can be renewed and some granted expiry lies both beyond the window
      and after the saved one. */
  lemma SaveDoublesIff(s: State, l: Label)
    requires Audited(s) && Quiet(s) && Enabled(s, l) && l.SaveBack?
    ensures (exists tr :: DoubleTrace(Apply(s, l), tr)) <==>
              Renewable(s.workers[l.w].account) && exists i :: Uncovers(s, l, i)
  {
    var t := Apply(s, l);
    if !Renewable(s.workers[l.w].account) {
      forall tr | DoubleTrace(t, tr) ensures false { FrozenRun(t, tr); }
    } else if exists i :: Uncovers(s, l, i) {
      var i :| Uncovers(s, l, i);
      UncoveringDoubles(s, l, i);
    } else {
      AuditedStep(s, l);
      forall tr | DoubleTrace(t, tr) ensures false {
        NotStaleIs(t, tr, ExpiryCompared);
        AuditedRun(t, tr);
      }
    }
  }

  // ------------------------------------------- the spent token is the stored one

  /** A loaded copy that will not be spent any more: its time is up, or it does not need a renewal before. */
  predicate Out(w: Worker, at: int, hold: nat)
    requires w.Loaded?
  {
    at > w.loadedAt + hold || !NeedsRefresh(w.account, w.loadedAt + hold)
  }

  /** A copy that may still be spent carries the stored refresh token, or the row outlasts the hold. */
  ghost predicate CopyOk(s: State, v: int, hold: nat)
    requires 0 <= v < |s.workers|
  {
    var w := s.workers[v];
    match w
    case Loaded(account, loadedAt) =>
      && loadedAt <= s.now
      && (|| SameRefresh(account, s.row) || Out(w, s.now, hold)
          || (!NeedsRefresh(s.row, loadedAt + hold) && forall u :: 0 <= u < |s.workers| ==> !PastCheck(s.workers[u])))
    case Critical(account, loadedAt, _) =>
      && loadedAt <= s.now
      && (|| SameRefresh(account, s.row) || s.now > loadedAt + hold || !NeedsRefresh(s.row, loadedAt + hold))
    case Exchanging(account, loadedAt, _) =>
      loadedAt <= s.now && (SameRefresh(account, s.row) || s.now > loadedAt + hold)
    case Storing(account, loadedAt, _, _, _) =>
      loadedAt <= s.now && (SameRefresh(account, s.row) || s.now > loadedAt + hold)
    case _ => true
  }

  /** What the provider accepts next is in the row, or on its way there. */
  ghost predicate ValidOk(s: State) {
    && ((forall v :: 0 <= v < |s.workers| ==> !(s.workers[v].Storing? && s.workers[v].answer.Granted?)) ==>
          s.row.credentials.refreshToken == s.valid)
    && (forall v :: 0 <= v < |s.workers| && s.workers[v].Storing? && s.workers[v].answer.Granted? ==>
          Merged(s.workers[v].account.credentials, s.workers[v].answer.grant).refreshToken == s.valid)
  }

  predicate SpentOk(e: Entry) {
    e.spent == e.stored.credentials.refreshToken == e.valid
  }

  ghost predicate Current(s: State, hold: nat) {
    && Locked(s) && ValidOk(s)
    && (forall v :: 0 <= v < |s.workers| ==> CopyOk(s, v, hold))
    && (forall i :: 0 <= i < |s.log| ==> SpentOk(s.log[i]))
  }

  ghost predicate Prompt(s: State, l: Label, hold: nat)
    requires Enabled(s, l)
  {
    && Holds(s, l, InsideTtl) && Holds(s, l, LongLived(hold))
    && Holds(s, l, HeldBriefly(hold)) && Holds(s, l, Harmless(hold))
  }

  lemma CopyOkSaved(s: State, l: Label, hold: nat, v: int)
    requires Current(s, hold) && Enabled(s, l) && Prompt(s, l, hold) && l.Save?
    requires 0 <= v < |s.workers| && v != l.w
    ensures CopyOk(Apply(s, l), v, hold)
  {
    var t := Apply(s, l);
    assert CopyOk(s, v, hold) && CopyOk(s, l.w, hold);
    assert !InCs(s.workers[v]) && t.workers[v] == s.workers[v];
    assert forall u :: 0 <= u < |t.workers| ==> !InCs(t.workers[u]) || u == l.w;
    assert !PastCheck(t.workers[l.w]);
    if !s.workers[l.w].answer.Granted? {
      assert SameRefresh(t.row, s.row);
    } else if s.workers[v].Loaded? && !Out(s.workers[v], t.now, hold) {
      assert !NeedsRefresh(t.row, s.workers[v].loadedAt + hold);
    }
  }

  lemma CopyOkSavedBack(s: State, l: Label, hold: nat, v: int)
    requires Current(s, hold) && Enabled(s, l) && Prompt(s, l, hold) && l.SaveBack?
    requires 0 <= v < |s.workers| && v != l.w
    ensures CopyOk(Apply(s, l), v, hold)
  {
    var t := Apply(s, l);
    assert CopyOk(s, v, hold);
    assert SameRefresh(t.row, s.row) && t.workers[v] == s.workers[v];
    assert forall u :: 0 <= u < |t.workers| ==> PastCheck(t.workers[u]) == PastCheck(s.workers[u]);
    if !SameToken(s.workers[l.w].account, s.row) {
      assert !LateSpender(s, l, hold, v);
    }
  }

  lemma CopyOkOther(s: State, l: Label, hold: nat, v: int)
    requires Current(s, hold) && Enabled(s, l) && Prompt(s, l, hold) && !l.Save? && !l.SaveBack?
    requires 0 <= v < |s.workers| && v != l.w
    ensures CopyOk(Apply(s, l), v, hold)
  {
    var t := Apply(s, l);
    assert CopyOk(s, v, hold);
    assert t.row == s.row && t.workers[v] == s.workers[v];
    if !(l.Recheck? && NeedsRefresh(s.row, l.at)) {
      assert forall u :: 0 <= u < |t.workers| && PastCheck(t.workers[u]) ==> PastCheck(s.workers[u]);
    }
  }

  lemma CopyOkOwn(s: State, l: Label, hold: nat)
    requires Current(s, hold) && Enabled(s, l) && Prompt(s, l, hold)
    ensures CopyOk(Apply(s, l), l.w, hold)
  {
    assert CopyOk(s, l.w, hold);
  }

  lemma ValidOkStep(s: State, l: Label, hold: nat)
    requires Current(s, hold) && Enabled(s, l) && Prompt(s, l, hold)
    ensures ValidOk(Apply(s, l))
  {
    var t := Apply(s, l);
    assert CopyOk(s, l.w, hold);
    if l.Exchange? {
      assert forall v :: 0 <= v < |s.workers| ==> !s.workers[v].Storing?;
      assert t.workers[l.w].Storing?;
    } else if l.Save? {
      assert forall v :: 0 <= v < |s.workers| && v != l.w ==> !s.workers[v].Storing?;
    } else {
      assert forall v :: 0 <= v < |s.workers| ==> t.workers[v].Storing? == s.workers[v].Storing?;
      assert forall v :: 0 <= v < |s.workers| && t.workers[v].Storing? ==> t.workers[v] == s.workers[v];
    }
  }

  lemma SpentOkStep(s: State, l: Label, hold: nat)
    requires Current(s, hold) && Enabled(s, l) && Prompt(s, l, hold) && l.Exchange?
    ensures SpentOk(Apply(s, l).log[|s.log|])
  {
    assert CopyOk(s, l.w, hold);
    assert forall v :: 0 <= v < |s.workers| ==> !s.workers[v].Storing?;
  }

  lemma CurrentStep(s: State, l: Label, hold: nat)
    requires Current(s, hold) && Enabled(s, l) && Prompt(s, l, hold)
    ensures Current(Apply(s, l), hold)
  {
    LockedStep(s, l);
    ValidOkStep(s, l, hold);
    forall v | 0 <= v < |s.workers| ensures CopyOk(Apply(s, l), v, hold) {
      if v == l.w {
        CopyOkOwn(s, l, hold);
      } else if l.Save? {
        CopyOkSaved(s, l, hold, v);
      } else if l.SaveBack? {
        CopyOkSavedBack(s, l, hold, v);
      } else {
        CopyOkOther(s, l, hold, v);
      }
    }
    if l.Exchange? { SpentOkStep(s, l, hold); }
  }

  ghost predicate AlwaysPrompt(s: State, tr: seq<Label>, hold: nat)
    requires Legal(s, tr)
  {
    Always(s, tr, InsideTtl) && Always(s, tr, LongLived(hold)) && Always(s, tr, HeldBriefly(hold))
  }

  lemma {:induction false} CurrentRun(s: State, tr: seq<Label>, hold: nat)
    requires Current(s, hold) && Legal(s, tr) && AlwaysPrompt(s, tr, hold) && Always(s, tr, Harmless(hold))
    ensures Current(Exec(s, tr), hold)
    decreases |tr|
  {
    if tr != [] {
      CurrentStep(s, tr[0], hold);
      CurrentRun(Apply(s, tr[0]), tr[1..], hold);
    }
  }

  /** If tokens outlive the window plus the longest time a worker holds a loaded row, and saves do no harm,
      every exchange spends the refresh token that is stored at that moment, although the code reads it from
      its own older copy, and that token is the one the provider issued last. */
  lemma SpendsTheStoredToken(now: int, row: Account, n: nat, tr: seq<Label>, hold: nat, i: nat)
    requires Legal(Start(now, row, n), tr)
    requires AlwaysPrompt(Start(now, row, n), tr, hold) && Always(Start(now, row, n), tr, Harmless(hold))
    requires i < |Exec(Start(now, row, n), tr).log|
    ensures SpentOk(Exec(Start(now, row, n), tr).log[i])
  {
    CurrentRun(Start(now, row, n), tr, hold);
  }

  /** What a granted answer leaves in the row and in the worker's hands: the token just granted. */
  lemma GrantIsStored(s: State, l: Label)
    requires Enabled(s, l) && l.Save? && s.workers[l.w].answer.Granted?
    ensures var grant := s.workers[l.w].answer.grant;
            var t := Apply(s, l);
            && t.row.credentials.accessToken == grant.accessToken
            && (grant.refreshToken != "" ==> t.row.credentials.refreshToken == grant.refreshToken)
            && (0 < grant.expiresAt ==> t.row.tokenExpiresAt == Some(grant.expiresAt))
            && !t.workers[l.w].Storing? && !t.workers[l.w].Idle? && t.workers[l.w].account == t.row
  {
  }

  /** The read of a waiting worker: a row outside its window is adopted, token and expiry; the eighth read
      that finds none leaves the worker with its own. */
  lemma WaiterReads(s: State, l: Label)
    requires Enabled(s, l) && l.Await?
    ensures var w := s.workers[l.w];
            var t := Apply(s, l);
            && t.row == s.row && t.lock == s.lock && t.valid == s.valid && t.log == s.log
            && if s.row.oauth && s.row.tokenExpiresAt.Some? && s.row.tokenExpiresAt.value <= l.at + 300_000
               then t.workers[l.w] == if w.tries == 7 then Ready(w.account)
                                      else Waiting(w.account, w.loadedAt, w.tries + 1)
               else t.workers[l.w].Ready? && SameCredentials(t.workers[l.w].account, s.row)
  {
  }

  predicate SameCredentials(a: Account, row: Account) {
    a.credentials == row.credentials && a.tokenExpiresAt == row.tokenExpiresAt && a.scopes == row.scopes
  }

  // ------------------------------------------------ exactly when a save does harm

  ghost predicate Quiet(s: State) {
    s.lock == None && forall v :: 0 <= v < |s.workers| ==> !InCs(s.workers[v])
  }

  predicate Renewable(a: Account) {
    a.oauth && a.tokenExpiresAt.Some?
  }

  /** A continuation, with no stale save in it, in which a refresh token is spent that the provider retired. */
  ghost predicate HarmTrace(s: State, tr: seq<Label>, hold: nat) {
    && Legal(s, tr) && AlwaysPrompt(s, tr, hold) && Always(s, tr, NotStale)
    && exists i :: |s.log| <= i < |Exec(s, tr).log| && !SpentOk(Exec(s, tr).log[i])
  }

  ghost predicate Harms(s: State, hold: nat) {
    exists tr :: HarmTrace(s, tr, hold)
  }

  /** While the stored account cannot be renewed at all nobody exchanges anything. */
  lemma {:induction false} FrozenRun(s: State, tr: seq<Label>)
    requires Legal(s, tr) && Always(s, tr, NotStale) && !Renewable(s.row)
    requires forall v :: 0 <= v < |s.workers| ==> !PastCheck(s.workers[v])
    ensures Exec(s, tr).log == s.log
    decreases |tr|
  {
    if tr != [] {
      FrozenRun(Apply(s, tr[0]), tr[1..]);
    }
  }

  lemma NoHarm(s: State, l: Label, hold: nat)
    requires Current(s, hold) && Quiet(s) && Enabled(s, l) && l.SaveBack?
    requires !Renewable(s.workers[l.w].account) || Holds(s, l, Harmless(hold))
    ensures !Harms(Apply(s, l), hold)
  {
    var t := Apply(s, l);
    if !Renewable(s.workers[l.w].account) {
      forall tr | HarmTrace(t, tr, hold) ensures false { FrozenRun(t, tr); }
    } else {
      CurrentStep(s, l, hold);
      forall tr | HarmTrace(t, tr, hold) ensures false {
        NotStaleIs(t, tr, Harmless(hold));
        CurrentRun(t, tr, hold);
      }
    }
  }

  lemma Prepend(s: State, l: Label, tr: seq<Label>, p: Promise)
    requires Enabled(s, l) && Holds(s, l, p) && Legal(Apply(s, l), tr) && Always(Apply(s, l), tr, p)
    ensures Legal(s, [l] + tr) && Always(s, [l] + tr, p) && Exec(s, [l] + tr) == Exec(Apply(s, l), tr)
  {
    assert ([l] + tr)[1..] == tr;
  }

  ghost predicate PromptStep(s: State, l: Label, hold: nat)
    requires Enabled(s, l)
  {
    Holds(s, l, InsideTtl) && Holds(s, l, LongLived(hold)) && Holds(s, l, HeldBriefly(hold))
  }

  lemma PrependPrompt(s: State, l: Label, tr: seq<Label>, hold: nat)
    requires Enabled(s, l) && PromptStep(s, l, hold)
    requires Legal(Apply(s, l), tr) && AlwaysPrompt(Apply(s, l), tr, hold)
    ensures Legal(s, [l] + tr) && AlwaysPrompt(s, [l] + tr, hold) && Exec(s, [l] + tr) == Exec(Apply(s, l), tr)
    ensures !l.SaveBack? && Always(Apply(s, l), tr, NotStale) ==> Always(s, [l] + tr, NotStale)
  {
    Prepend(s, l, tr, InsideTtl);
    Prepend(s, l, tr, LongLived(hold));
    Prepend(s, l, tr, HeldBriefly(hold));
    if !l.SaveBack? && Always(Apply(s, l), tr, NotStale) {
      Prepend(s, l, tr, NotStale);
    }
  }

  /** A loaded worker gets the free lock, finds the row still inside its window and spends its refresh token. */
  lemma SpendLoaded(s: State, w: nat, at: int, answer: Answer, hold: nat) returns (tr: seq<Label>)
    requires Quiet(s) && s.now <= at && w < |s.workers| && s.workers[w].Loaded?
    requires NeedsRefresh(s.row, at) && NeedsRefresh(s.workers[w].account, at) && at <= s.workers[w].loadedAt + hold
    ensures Legal(s, tr) && AlwaysPrompt(s, tr, hold) && Always(s, tr, NotStale)
    ensures var u := s.workers[w];
            Exec(s, tr) == State(at, s.row, Some(at + LOCK_TTL_MS),
                                 s.workers[w := Storing(u.account, u.loadedAt, at, answer, |s.log|)],
                                 s.log + [Entry(at, u.account.credentials.refreshToken, s.row, s.valid, answer)],
                                 if answer.Granted? && answer.grant.refreshToken != ""
                                 then answer.grant.refreshToken else s.valid)
  {
    var l1, l2, l3 := Acquire(w, at), Recheck(w, at), Exchange(w, at, answer);
    var s1 := Apply(s, l1);
    var s2 := Apply(s1, l2);
    var s3 := Apply(s2, l3);
    PrependPrompt(s2, l3, [], hold);
    PrependPrompt(s1, l2, [l3] + [], hold);
    PrependPrompt(s, l1, [l2] + ([l3] + []), hold);
    tr := [l1] + ([l2] + ([l3] + []));
    assert s3.workers == s.workers[w := Storing(s.workers[w].account, s.workers[w].loadedAt, at, answer, |s.log|)];
  }

  /** An idle worker loads a row that is inside its window, gets the lock and spends the refresh token. */
  lemma SpendRound(s: State, w: nat, at: int, answer: Answer, hold: nat) returns (tr: seq<Label>)
    requires Quiet(s) && s.now <= at && w < |s.workers| && s.workers[w].Idle? && NeedsRefresh(s.row, at)
    ensures Legal(s, tr) && AlwaysPrompt(s, tr, hold) && Always(s, tr, NotStale)
    ensures Exec(s, tr) == State(at, s.row, Some(at + LOCK_TTL_MS),
                                 s.workers[w := Storing(s.row, at, at, answer, |s.log|)],
                                 s.log + [Entry(at, s.row.credentials.refreshToken, s.row, s.valid, answer)],
                                 if answer.Granted? && answer.grant.refreshToken != ""
                                 then answer.grant.refreshToken else s.valid)
  {
    var l := Load(w, at);
    var s1 := Apply(s, l);
    var rest := SpendLoaded(s1, w, at, answer, hold);
    PrependPrompt(s, l, rest, hold);
    tr := [l] + rest;
    var storing := Storing(s.row, at, at, answer, |s.log|);
    assert s1.workers[w := storing] == s.workers[w := storing];
  }

  /** A saved-back struct whose refresh token is not the stored one: the next renewal spends it. */
  lemma DifferentTokenHarms(s: State, l: Label, hold: nat)
    requires Current(s, hold) && Quiet(s) && Enabled(s, l) && l.SaveBack?
    requires Renewable(s.workers[l.w].account) && !SameRefresh(s.workers[l.w].account, s.row)
    ensures Harms(Apply(s, l), hold)
  {
    var t := Apply(s, l);
    var free := Finish(l.w, t.now);
    var t1 := Apply(t, free);
    var rest := SpendRound(t1, l.w, Max(t.now, t.row.tokenExpiresAt.value), Unavailable, hold);
    PrependPrompt(t, free, rest, hold);
    assert !SpentOk(Exec(t, [free] + rest).log[|t.log|]);
    assert HarmTrace(t, [free] + rest, hold);
  }

  /** Or one that makes a worker with an older copy go through with its renewal. */
  lemma LateSpenderHarms(s: State, l: Label, hold: nat, u: int)
    requires Current(s, hold) && Quiet(s) && Enabled(s, l) && l.SaveBack? && LateSpender(s, l, hold, u)
    requires SameRefresh(s.workers[l.w].account, s.row)
    ensures Harms(Apply(s, l), hold)
  {
    var t := Apply(s, l);
    assert !InCs(s.workers[u]) && u != l.w && t.workers[u] == s.workers[u];
    var tr := SpendLoaded(t, u, s.workers[u].loadedAt + hold, Unavailable, hold);
    assert !SpentOk(Exec(t, tr).log[|t.log|]);
    assert HarmTrace(t, tr, hold);
  }

  /** The exact condition, between critical sections: a save can lead to a retired token being spent if and
      only if the account can be renewed and either the saved struct's refresh token is not the stored one,
      or its expiry lets a worker with an older copy still go through with a renewal. */
  lemma SaveHarmsIff(s: State, l: Label, hold: nat)
    requires Current(s, hold) && Quiet(s) && Enabled(s, l) && l.SaveBack?
    ensures var account := s.workers[l.w].account;
            Harms(Apply(s, l), hold) <==>
              && Renewable(account)
              && (!SameRefresh(account, s.row) || exists u :: LateSpender(s, l, hold, u))
  {
    var account := s.workers[l.w].account;
    if Renewable(account) && !SameRefresh(account, s.row) {
      DifferentTokenHarms(s, l, hold);
    } else if exists u :: LateSpender(s, l, hold, u) {
      var u :| LateSpender(s, l, hold, u);
      LateSpenderHarms(s, l, hold, u);
    } else {
      NoHarm(s, l, hold);
    }
  }

  // -------------------------------------------- a refresh is its machine steps

  function Leave(s: State, w: nat, at: int, account: Account, row: Account, log: seq<Entry>, valid: string): State
    requires w < |s.workers|
  {
    State(at, row, None, s.workers[w := Ready(account)], log, valid)
  }

  /** Taking the lock and finding that somebody stored a fresh token: adopt it and let go. */
  lemma AdoptSteps(s: State, w: nat, at: int) returns (tr: seq<Label>)
    requires Quiet(s) && s.now <= at && w < |s.workers| && s.workers[w].Loaded?
    requires NeedsRefresh(s.workers[w].account, at) && !NeedsRefresh(s.row, at)
    ensures Legal(s, tr)
    ensures Exec(s, tr) == Leave(s, w, at, Adopted(s.workers[w].account, s.row), s.row, s.log, s.valid)
  {
    var l1, l2, l3 := Acquire(w, at), Recheck(w, at), Release(w, at);
    var s1 := Apply(s, l1);
    var s2 := Apply(s1, l2);
    var s3 := Apply(s2, l3);
    Prepend(s2, l3, [], NotStale);
    Prepend(s1, l2, [l3] + [], NotStale);
    Prepend(s, l1, [l2] + ([l3] + []), NotStale);
    tr := [l1] + ([l2] + ([l3] + []));
    assert s3.workers == s.workers[w := Ready(Adopted(s.workers[w].account, s.row))];
  }

  /** An uncontended refresh, as the method performs it, is a run of the machine: the caller ends with the same
      struct and the store with the same row. */
  lemma RefreshIsItsSteps(s: State, w: nat, at: int, answer: Answer) returns (tr: seq<Label>)
    requires Quiet(s) && s.now <= at && w < |s.workers| && s.workers[w].Loaded?
    ensures Legal(s, tr)
    ensures var (_, account, row) := Refreshed(s.workers[w].account, s.row, at, true, true, answer);
            && Exec(s, tr).row == row && Exec(s, tr).lock == None
            && |Exec(s, tr).workers| == |s.workers| && Exec(s, tr).workers[w] == Ready(account)
  {
    var a := s.workers[w].account;
    if !NeedsRefresh(a, at) {
      Prepend(s, Skip(w, at), [], NotStale);
      tr := [Skip(w, at)] + [];
    } else if !NeedsRefresh(s.row, at) {
      tr := AdoptSteps(s, w, at);
    } else {
      var loadedAt := s.workers[w].loadedAt;
      var spend := SpendLoaded(s, w, at, answer, Max(0, at - loadedAt));
      var s1 := Exec(s, spend);
      var s2 := Apply(s1, Save(w, at));
      Prepend(s2, Release(w, at), [], NotStale);
      Prepend(s1, Save(w, at), [Release(w, at)] + [], NotStale);
      var rest := [Save(w, at)] + ([Release(w, at)] + []);
      Join(s, spend, rest, NotStale);
      tr := spend + rest;
    }
  }

  // ------------------------------------- a save under a grant about to be stored

  /** Somebody holds a granted answer and is about to store it, whatever the row says meanwhile. */
  ghost predicate GrantPending(s: State) {
    && Locked(s)
    && (forall i :: 0 <= i < |s.log| ==> SpentOk(s.log[i]))
    && (forall v :: 0 <= v < |s.workers| && s.workers[v].Loaded? ==> s.workers[v].loadedAt <= s.now)
    && exists v :: StoresGrant(s, v)
  }

  ghost predicate StoresGrant(s: State, v: int) {
    && 0 <= v < |s.workers| && s.workers[v].Storing? && s.workers[v].answer.Granted?
    && Merged(s.workers[v].account.credentials, s.workers[v].answer.grant).refreshToken == s.valid
  }

  /** Nothing is spent before the grant is stored, and once it is, the row is current again. */
  lemma GrantPendingStep(s: State, l: Label, hold: nat)
    requires GrantPending(s) && Enabled(s, l) && PromptStep(s, l, hold)
    ensures GrantPending(Apply(s, l)) || Current(Apply(s, l), hold)
  {
    LockedStep(s, l);
    var t := Apply(s, l);
    var v :| StoresGrant(s, v);
    assert InCs(s.workers[v]);
    if l.w == v {
      forall u | 0 <= u < |t.workers| ensures CopyOk(t, u, hold) {
        assert !InCs(t.workers[u]) || u == v;
      }
    } else {
      assert !InCs(s.workers[l.w]);
      assert StoresGrant(t, v);
    }
  }

  lemma {:induction false} GrantPendingRun(s: State, tr: seq<Label>, hold: nat)
    requires GrantPending(s) || Current(s, hold)
    requires Legal(s, tr) && AlwaysPrompt(s, tr, hold) && Always(s, tr, NotStale)
    ensures GrantPending(Exec(s, tr)) || Current(Exec(s, tr), hold)
    decreases |tr|
  {
    if tr != [] {
      if GrantPending(s) {
        GrantPendingStep(s, tr[0], hold);
      } else {
        CurrentStep(s, tr[0], hold);
      }
      GrantPendingRun(Apply(s, tr[0]), tr[1..], hold);
    }
  }

  /** A save made while another worker is about to store a granted answer does no harm, whatever it saves:
      that worker overwrites it. */
  lemma SaveUnderGrantIsHarmless(s: State, l: Label, hold: nat, v: int)
    requires Current(s, hold) && Enabled(s, l) && l.SaveBack? && Holds(s, l, InsideTtl)
    requires 0 <= v < |s.workers| && s.workers[v].Storing? && s.workers[v].answer.Granted?
    ensures !Harms(Apply(s, l), hold)
  {
    var t := Apply(s, l);
    LockedStep(s, l);
    assert StoresGrant(t, v);
    forall u | 0 <= u < |t.workers| && t.workers[u].Loaded? ensures t.workers[u].loadedAt <= t.now {
      assert CopyOk(s, u, hold);
    }
    forall tr | HarmTrace(t, tr, hold) ensures false {
      GrantPendingRun(t, tr, hold);
    }
  }

  // --------------------------------- comparing the two refresh tokens is enough

  predicate Lapses(a: Account, at: int) {
    a.tokenExpiresAt.Some? && at + REFRESH_WINDOW_MS >= a.tokenExpiresAt.value
  }

  predicate Spender(w: Worker) {
    w.Loaded? || w.Critical?
  }

  /** Any copy with the stored refresh token outlasts the hold of a worker whose copy has another one. */
  ghost predicate Dated(s: State, hold: nat) {
    forall u :: 0 <= u < |s.workers| && Spender(s.workers[u]) && !SameRefresh(s.workers[u].account, s.row) ==>
      DatedFor(s, hold, u)
  }

  ghost predicate DatedFor(s: State, hold: nat, u: int)
    requires 0 <= u < |s.workers| && Spender(s.workers[u])
  {
    var end := s.workers[u].loadedAt + hold;
    && !Lapses(s.row, end)
    && forall v :: 0 <= v < |s.workers| && !s.workers[v].Idle? && SameRefresh(s.workers[v].account, s.row) ==>
         !Lapses(s.workers[v].account, end)
  }

  lemma ComparedIsHarmless(s: State, l: Label, hold: nat)
    requires Dated(s, hold) && Enabled(s, l) && Holds(s, l, TokensCompared)
    ensures Holds(s, l, Harmless(hold))
  {
    if l.SaveBack? {
      forall u ensures !LateSpender(s, l, hold, u) {
        if 0 <= u < |s.workers| && Spender(s.workers[u]) && !SameRefresh(s.workers[u].account, s.row) {
          assert DatedFor(s, hold, u);
        }
      }
    }
  }

  /** The account a worker's step leaves it with keeps its token, takes the row's, or is the renewed one. */
  lemma DatedStep(s: State, l: Label, hold: nat)
    requires Current(s, hold) && Dated(s, hold) && Enabled(s, l)
    requires PromptStep(s, l, hold) && Holds(s, l, NoReissue) && Holds(s, l, TokensCompared)
    ensures Dated(Apply(s, l), hold)
  {
    var t := Apply(s, l);
    forall u | 0 <= u < |t.workers| && Spender(t.workers[u]) && !SameRefresh(t.workers[u].account, t.row)
      ensures DatedFor(t, hold, u)
    {
      if l.Save? {
        DatedSaved(s, l, hold, u);
      } else {
        DatedKept(s, l, hold, u);
      }
    }
  }

  lemma DatedKept(s: State, l: Label, hold: nat, u: int)
    requires Dated(s, hold) && Enabled(s, l) && !l.Save? && Holds(s, l, TokensCompared)
    requires 0 <= u < |s.workers| && Spender(Apply(s, l).workers[u])
    requires !SameRefresh(Apply(s, l).workers[u].account, Apply(s, l).row)
    ensures DatedFor(Apply(s, l), hold, u)
  {
    var t := Apply(s, l);
    assert SameRefresh(t.row, s.row);
    assert Spender(s.workers[u]) && t.workers[u].account == s.workers[u].account;
    assert DatedFor(s, hold, u);
  }

  lemma DatedSaved(s: State, l: Label, hold: nat, u: int)
    requires Current(s, hold) && Dated(s, hold) && Enabled(s, l) && l.Save?
    requires PromptStep(s, l, hold) && Holds(s, l, NoReissue)
    requires 0 <= u < |s.workers| && Spender(Apply(s, l).workers[u])
    requires !SameRefresh(Apply(s, l).workers[u].account, Apply(s, l).row)
    ensures DatedFor(Apply(s, l), hold, u)
  {
    assert u != l.w && CopyOk(s, u, hold) && CopyOk(s, l.w, hold);
    assert SameRefresh(s.workers[l.w].account, s.row);
    if !SameRefresh(s.workers[u].account, s.row) {
      assert DatedFor(s, hold, u);
    }
  }

  lemma {:induction false} DatedRun(s: State, tr: seq<Label>, hold: nat)
    requires Current(s, hold) && Dated(s, hold) && Legal(s, tr) && AlwaysPrompt(s, tr, hold)
    requires Always(s, tr, NoReissue) && Always(s, tr, TokensCompared)
    ensures Current(Exec(s, tr), hold) && Dated(Exec(s, tr), hold)
    decreases |tr|
  {
    if tr != [] {
      ComparedIsHarmless(s, tr[0], hold);
      CurrentStep(s, tr[0], hold);
      DatedStep(s, tr[0], hold);
      DatedRun(Apply(s, tr[0]), tr[1..], hold);
    }
  }

  /** With a provider that never issues a refresh token twice, a caller that compares its refresh token with
      the stored one before it saves is all it takes: every exchange spends the stored token. */
  lemma ComparingIsEnough(now: int, row: Account, n: nat, tr: seq<Label>, hold: nat, i: nat)
    requires Legal(Start(now, row, n), tr) && AlwaysPrompt(Start(now, row, n), tr, hold)
    requires Always(Start(now, row, n), tr, NoReissue) && Always(Start(now, row, n), tr, TokensCompared)
    requires i < |Exec(Start(now, row, n), tr).log|
    ensures SpentOk(Exec(Start(now, row, n), tr).log[i])
  {
    DatedRun(Start(now, row, n), tr, hold);
  }

  /** And the comparison is exact: after such a run, between critical sections, the next save of a renewable
      account can lead to a retired token being spent if and only if its refresh token is not the stored one. */
  lemma StaleSaveHarmsIff(now: int, row: Account, n: nat, tr: seq<Label>, hold: nat, l: Label)
    requires Legal(Start(now, row, n), tr) && AlwaysPrompt(Start(now, row, n), tr, hold)
    requires Always(Start(now, row, n), tr, NoReissue) && Always(Start(now, row, n), tr, TokensCompared)
    requires Quiet(Exec(Start(now, row, n), tr)) && Enabled(Exec(Start(now, row, n), tr), l) && l.SaveBack?
    ensures var s := Exec(Start(now, row, n), tr);
            var account := s.workers[l.w].account;
            Harms(Apply(s, l), hold) <==> Renewable(account) && !SameRefresh(account, s.row)
  {
    DatedRun(Start(now, row, n), tr, hold);
    var s := Exec(Start(now, row, n), tr);
    SaveHarmsIff(s, l, hold);
    if SameRefresh(s.workers[l.w].account, s.row) {
      ComparedIsHarmless(s, l, hold);
      if Renewable(s.workers[l.w].account) { NoHarm(s, l, hold); }
    }
  }

  // --------------------------------------------- what a stale save-back undoes

  lemma {:induction false} Join(s: State, a: seq<Label>, b: seq<Label>, p: Promise)
    requires Legal(s, a) && Always(s, a, p) && Legal(Exec(s, a), b) && Always(Exec(s, a), b, p)
    ensures Legal(s, a + b) && Always(s, a + b, p) && Exec(s, a + b) == Exec(Exec(s, a), b)
    decreases |a|
  {
    if a == [] {
      assert a + b == b;
    } else {
      Join(Apply(s, a[0]), a[1..], b, p);
      Prepend(s, a[0], a[1..] + b, p);
      assert [a[0]] + (a[1..] + b) == a + b;
    }
  }

  lemma JoinPrompt(s: State, a: seq<Label>, b: seq<Label>, hold: nat)
    requires Legal(s, a) && AlwaysPrompt(s, a, hold) && Legal(Exec(s, a), b) && AlwaysPrompt(Exec(s, a), b, hold)
    ensures Legal(s, a + b) && AlwaysPrompt(s, a + b, hold) && Exec(s, a + b) == Exec(Exec(s, a), b)
  {
    Join(s, a, b, InsideTtl);
    Join(s, a, b, LongLived(hold));
    Join(s, a, b, HeldBriefly(hold));
  }

  const SampleRow := Account(true, Credentials("", "", "a0", "r0"), Some(1_000_000), None, Verified, None, "")
  const SampleGrant := Grant("a1", "r1", 10_000_000, "")

  /** The lock holder stores the grant and lets go. */
  lemma StoreAndRelease(s: State, hold: nat) returns (tr: seq<Label>)
    requires s.now == 700_000 && s.lock == Some(730_000) && |s.workers| == 2 && s.workers[0] == Ready(SampleRow)
    requires s.workers[1] == Storing(SampleRow, 700_000, 700_000, Granted(SampleGrant), 0) && hold <= 1_000_000
    ensures Legal(s, tr) && AlwaysPrompt(s, tr, hold)
    ensures var renewed := Renewed(SampleRow, SampleGrant);
            Exec(s, tr) == State(700_000, renewed, None, [Ready(SampleRow), Ready(renewed)], s.log, s.valid)
  {
    var l1, l2 := Save(1, 700_000), Release(1, 700_000);
    var s1 := Apply(s, l1);
    PrependPrompt(s1, l2, [], hold);
    PrependPrompt(s, l1, [l2] + [], hold);
    tr := [l1] + ([l2] + []);
  }

  /** The other worker saves its older struct, and the first one goes idle. */
  lemma SaveOlder(s: State, hold: nat) returns (tr: seq<Label>)
    requires s.now == 700_000 && Quiet(s) && |s.workers| == 2
    requires s.workers[0] == Ready(SampleRow) && s.workers[1].Ready?
    ensures Legal(s, tr) && AlwaysPrompt(s, tr, hold)
    ensures var older := SampleRow.(syncState := "cursor");
            Exec(s, tr) == State(700_001, older, None, [Ready(older), Idle], s.log, s.valid)
  {
    var l1, l2 := SaveBack(0, 700_001, "cursor"), Finish(1, 700_001);
    var s1 := Apply(s, l1);
    PrependPrompt(s1, l2, [], hold);
    PrependPrompt(s, l1, [l2] + [], hold);
    tr := [l1] + ([l2] + []);
  }

  /** A syncing worker resolves the row just before its window opens. */
  lemma EarlyLoad(hold: nat) returns (tr: seq<Label>)
    ensures Legal(Start(0, SampleRow, 2), tr) && AlwaysPrompt(Start(0, SampleRow, 2), tr, hold)
    ensures Exec(Start(0, SampleRow, 2), tr) == State(699_999, SampleRow, None, [Ready(SampleRow), Idle], [], "r0")
  {
    var s0 := Start(0, SampleRow, 2);
    var l1, l2 := Load(0, 699_999), Skip(0, 699_999);
    var s1 := Apply(s0, l1);
    PrependPrompt(s1, l2, [], hold);
    PrependPrompt(s0, l1, [l2] + [], hold);
    tr := [l1] + ([l2] + []);
  }

  const SampleEntry := Entry(700_000, "r0", SampleRow, "r0", Granted(SampleGrant))

  /** One worker loads at 699.999 s, another renews and stores at 700 s. */
  lemma RenewMeanwhile(hold: nat) returns (tr: seq<Label>)
    requires hold <= 1_000_000
    ensures Legal(Start(0, SampleRow, 2), tr) && AlwaysPrompt(Start(0, SampleRow, 2), tr, hold)
    ensures var renewed := Renewed(SampleRow, SampleGrant);
            Exec(Start(0, SampleRow, 2), tr)
            == State(700_000, renewed, None, [Ready(SampleRow), Ready(renewed)], [SampleEntry], "r1")
  {
    var s0 := Start(0, SampleRow, 2);
    var load := EarlyLoad(hold);
    var s1 := Exec(s0, load);
    var spend := SpendRound(s1, 1, 700_000, Granted(SampleGrant), hold);
    var store := StoreAndRelease(Exec(s1, spend), hold);
    JoinPrompt(s1, spend, store, hold);
    JoinPrompt(s0, load, spend + store, hold);
    tr := load + (spend + store);
  }

  /** The first saves its struct a millisecond later, and the second renews again: it spends the token that
      its own renewal retired. */
  lemma SpendOlder(s: State, last: Answer, hold: nat) returns (tr: seq<Label>)
    requires s.now == 700_000 && Quiet(s) && |s.workers| == 2
    requires s.workers[0] == Ready(SampleRow) && s.workers[1].Ready?
    ensures Legal(s, tr) && AlwaysPrompt(s, tr, hold)
    ensures Exec(s, tr).log == s.log + [Entry(700_002, "r0", SampleRow.(syncState := "cursor"), s.valid, last)]
  {
    var save := SaveOlder(s, hold);
    var spend := SpendRound(Exec(s, save), 1, 700_002, last, hold);
    JoinPrompt(s, save, spend, hold);
    tr := save + spend;
  }

  lemma StaleSave(last: Answer) returns (tr: seq<Label>)
    ensures Legal(Start(0, SampleRow, 2), tr) && AlwaysPrompt(Start(0, SampleRow, 2), tr, 60_000)
    ensures Exec(Start(0, SampleRow, 2), tr).log
            == [SampleEntry, Entry(700_002, "r0", SampleRow.(syncState := "cursor"), "r1", last)]
  {
    var s0 := Start(0, SampleRow, 2);
    var renew := RenewMeanwhile(60_000);
    var more := SpendOlder(Exec(s0, renew), last, 60_000);
    JoinPrompt(s0, renew, more, 60_000);
    tr := renew + more;
  }

  /** Sync saves the whole struct it resolved when it is done. If another worker renewed meanwhile, that save
      puts the retired refresh token back, and the next exchange spends a token the provider no longer
      accepts. Nothing in the code prevents this. */
  lemma StaleSaveUndoesRenewal() returns (tr: seq<Label>)
    ensures Legal(Start(0, SampleRow, 2), tr) && AlwaysPrompt(Start(0, SampleRow, 2), tr, 60_000)
    ensures var log := Exec(Start(0, SampleRow, 2), tr).log; |log| == 2 && !SpentOk(log[1])
  {
    tr := StaleSave(Unavailable);
  }

  /** And a provider that still accepts the old token is asked twice within one expiry. */
  lemma StaleSaveDoublesExchange() returns (tr: seq<Label>)
    ensures Legal(Start(0, SampleRow, 2), tr) && AlwaysPrompt(Start(0, SampleRow, 2), tr, 60_000)
    ensures var log := Exec(Start(0, SampleRow, 2), tr).log; |log| == 2 && !PairOk(log, 0, 1)
  {
    tr := StaleSave(Granted(Grant("a2", "r2", 20_000_000, "")));
  }
}
