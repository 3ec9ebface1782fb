/** A connected mailbox, its credentials, and every writer that merges them. */
module Tokens {
  import opened Common

  const REFRESH_WINDOW_MS := 300_000
  const LOCK_TTL_MS := 30_000
  const AWAIT_ATTEMPTS := 8

  datatype Credentials = Credentials(username: string, password: string, accessToken: string, refreshToken: string)

  datatype AccountStatus = Unverified | Verified | Broken | Disabled

  datatype Account = Account(
    oauth: bool,
    credentials: Credentials,
    tokenExpiresAt: Option<int>,
    scopes: Option<string>,
    status: AccountStatus,
    lastError: Option<string>,
    syncState: string)

  /** What the provider returns for a code or a refresh token. */
  datatype Grant = Grant(accessToken: string, refreshToken: string, expiresAt: int, scopes: string)

  datatype Answer = Granted(grant: Grant) | Revoked | Unavailable

  predicate NeedsRefresh(a: Account, now: int) {
    a.oauth && a.tokenExpiresAt.Some? && now + REFRESH_WINDOW_MS >= a.tokenExpiresAt.value
  }

  function Merged(c: Credentials, grant: Grant): Credentials {
    c.(accessToken := grant.accessToken,
       refreshToken := if grant.refreshToken != "" then grant.refreshToken else c.refreshToken)
  }

  function Adopted(a: Account, stored: Account): Account {
    a.(credentials := stored.credentials, tokenExpiresAt := stored.tokenExpiresAt, scopes := stored.scopes)
  }

  function Renewed(a: Account, grant: Grant): Account {
    a.(credentials := Merged(a.credentials, grant),
       tokenExpiresAt := if grant.expiresAt > 0 then Some(grant.expiresAt) else a.tokenExpiresAt,
       scopes := if grant.scopes != "" then Some(grant.scopes) else a.scopes)
  }

  const WITHDRAWN := "access to this mailbox was withdrawn; reconnect it to grant it again"

  function Parked(a: Account): Account {
    a.(status := Broken, lastError := Some(WITHDRAWN))
  }

  /** The settings form: changed credentials send the account back for verification. */
  function Edited(a: Account, username: string, password: string): Account {
    if username == "" && password == "" then a
    else a.(credentials := a.credentials.(
              username := if username != "" then username else a.credentials.username,
              password := if password != "" then password else a.credentials.password),
            status := Unverified)
  }

  /** A second consent for a mailbox that already exists. */
  function Reconnected(a: Account, grant: Grant): Account {
    a.(oauth := true,
       credentials := Merged(a.credentials, grant),
       tokenExpiresAt := if grant.expiresAt > 0 then Some(grant.expiresAt) else a.tokenExpiresAt,
       scopes := if grant.scopes == "" then None else Some(grant.scopes),
       lastError := None,
       status := Unverified)
  }

  // ------------------------------------------------- the writers, taken atomically

  datatype Write =
    | Edit(username: string, password: string)
    | Consent(grant: Grant)
    | StoreTokens(grant: Grant)
    | Park
    | AdoptAndSave(older: Account)

  /** One read-modify-write of the stored row. AdoptAndSave is a caller that loaded an older struct, adopted
      the stored credentials and saved its struct with a sync state of its own. */
  function Written(row: Account, w: Write): Account {
    match w
    case Edit(username, password) => Edited(row, username, password)
    case Consent(grant) => Reconnected(row, grant)
    case StoreTokens(grant) => Renewed(row, grant)
    case Park => Parked(row)
    case AdoptAndSave(older) => Adopted(older, row)
  }

  function WrittenAll(row: Account, ws: seq<Write>): Account
    decreases |ws|
  {
    if ws == [] then row else WrittenAll(Written(row, ws[0]), ws[1..])
  }

  /** However the writers follow one another, a stored refresh token is never blanked, a login name and a
      password are never cleared, and the only things that replace them are what a form or a grant carried. */
  lemma {:induction false} NothingIsCleared(row: Account, ws: seq<Write>)
    ensures var c := WrittenAll(row, ws).credentials;
            && (row.credentials.refreshToken != "" ==> c.refreshToken != "")
            && (row.credentials.username != "" ==> c.username != "")
            && (row.credentials.password != "" ==> c.password != "")
            && (c.username == row.credentials.username || exists w :: w in ws && w.Edit? && w.username == c.username)
            && (c.password == row.credentials.password || exists w :: w in ws && w.Edit? && w.password == c.password)
            && (c.refreshToken == row.credentials.refreshToken ||
                exists w :: w in ws && (w.Consent? || w.StoreTokens?) && w.grant.refreshToken == c.refreshToken)
    decreases |ws|
  {
    if ws != [] {
      NothingIsCleared(Written(row, ws[0]), ws[1..]);
      assert ws[0] in ws && forall w :: w in ws[1..] ==> w in ws;
    }
  }

  /** The grant a write brings in. */
  function GrantOf(w: Write): Option<Grant> {
    match w
    case Consent(grant) => Some(grant)
    case StoreTokens(grant) => Some(grant)
    case _ => None
  }

  /** The access token of the last grant. */
  function LastAccess(initial: string, ws: seq<Write>): string {
    if ws == [] then initial
    else
      var g := GrantOf(ws[|ws| - 1]);
      if g.Some? then g.value.accessToken else LastAccess(initial, ws[..|ws| - 1])
  }

  /** The last refresh token a grant brought that was not empty. */
  function LastRefresh(initial: string, ws: seq<Write>): string {
    if ws == [] then initial
    else
      var g := GrantOf(ws[|ws| - 1]);
      if g.Some? && g.value.refreshToken != "" then g.value.refreshToken else LastRefresh(initial, ws[..|ws| - 1])
  }

  /** The last expiry a grant knew. */
  function LastExpiry(initial: Option<int>, ws: seq<Write>): Option<int> {
    if ws == [] then initial
    else
      var g := GrantOf(ws[|ws| - 1]);
      if g.Some? && 0 < g.value.expiresAt then Some(g.value.expiresAt) else LastExpiry(initial, ws[..|ws| - 1])
  }

  function LastUsername(initial: string, ws: seq<Write>): string {
    if ws == [] then initial
    else
      var w := ws[|ws| - 1];
      if w.Edit? && w.username != "" then w.username else LastUsername(initial, ws[..|ws| - 1])
  }

  function LastPassword(initial: string, ws: seq<Write>): string {
    if ws == [] then initial
    else
      var w := ws[|ws| - 1];
      if w.Edit? && w.password != "" then w.password else LastPassword(initial, ws[..|ws| - 1])
  }

  lemma {:induction false} WrittenSnoc(row: Account, ws: seq<Write>)
    requires ws != []
    ensures WrittenAll(row, ws) == Written(WrittenAll(row, ws[..|ws| - 1]), ws[|ws| - 1])
    decreases |ws|
  {
    var n := |ws| - 1;
    if n > 0 {
      WrittenSnoc(Written(row, ws[0]), ws[1..]);
      assert ws[1..][..n - 1] == ws[..n][1..];
    }
  }

  /** Over every sequence of writes, what is stored is the latest of everything: the access token of the last
      grant, the last refresh token and expiry a grant brought, the last name and password typed. */
  lemma {:induction false} StoredIsLatest(row: Account, ws: seq<Write>)
    ensures var a := WrittenAll(row, ws);
            && a.credentials == Credentials(LastUsername(row.credentials.username, ws),
                                            LastPassword(row.credentials.password, ws),
                                            LastAccess(row.credentials.accessToken, ws),
                                            LastRefresh(row.credentials.refreshToken, ws))
            && a.tokenExpiresAt == LastExpiry(row.tokenExpiresAt, ws)
    decreases |ws|
  {
    if ws != [] {
      WrittenSnoc(row, ws);
      StoredIsLatest(row, ws[..|ws| - 1]);
    }
  }

  /** What each writer makes of the other columns: a form and a consent send the account back for
      verification, a consent makes it an OAuth account and clears its error, a withdrawn grant parks it with
      the reason, and renewing or adopting leaves all of that alone. */
  lemma OtherColumns(a: Account, w: Write)
    ensures var b := Written(a, w);
            match w
            case Edit(username, password) =>
              b == a.(credentials := b.credentials,
                      status := if username == "" && password == "" then a.status else Unverified)
            case Consent(grant) =>
              && b.oauth && b.status == Unverified && b.lastError == None && b.syncState == a.syncState
              && (b.scopes == None <==> grant.scopes == "") && (b.scopes.Some? ==> b.scopes.value == grant.scopes)
            case StoreTokens(grant) =>
              && b.oauth == a.oauth && b.status == a.status && b.lastError == a.lastError && b.syncState == a.syncState
              && b.scopes == (if grant.scopes == "" then a.scopes else Some(grant.scopes))
            case Park => b.status == Broken && b.lastError.Some? && b == a.(status := Broken, lastError := b.lastError)
            case AdoptAndSave(older) =>
              && b.oauth == older.oauth && b.status == older.status && b.lastError == older.lastError
              && b.syncState == older.syncState && b.scopes == a.scopes
  {
  }

  /** A token is renewed from five minutes before it expires, on OAuth accounts of known expiry only. */
  lemma NeedsRefreshIff(a: Account, now: int)
    ensures NeedsRefresh(a, now) <==> a.oauth && a.tokenExpiresAt.Some? && a.tokenExpiresAt.value - 300_000 <= now
  {
  }

  // ------------------------------------------------------ the same, as it is written

  /** The mail_accounts struct a caller holds. */
  class MailAccount {
    var oauth: bool
    var credentials: Credentials
    var tokenExpiresAt: Option<int>
    var scopes: Option<string>
    var status: AccountStatus
    var lastError: Option<string>
    var syncState: string

    function Value(): Account
      reads this
    {
      Account(oauth, credentials, tokenExpiresAt, scopes, status, lastError, syncState)
    }

    constructor (row: Account)
      ensures Value() == row
    {
      oauth := row.oauth;
      credentials := row.credentials;
      tokenExpiresAt := row.tokenExpiresAt;
      scopes := row.scopes;
      status := row.status;
      lastError := row.lastError;
      syncState := row.syncState;
    }
  }

  /** The stored row and the lock key in redis, with its expiry. */
  class Store {
    var row: Account
    var lock: Option<int>

    constructor (row: Account)
      ensures this.row == row && lock == None
    {
      this.row := row;
      lock := None;
    }

    /** SETNX with a time to live: taken only when no unexpired key is there. */
    method Acquire(now: int, ttl: int) returns (acquired: bool)
      modifies this`lock
      ensures acquired <==> old(lock).None? || old(lock).value <= now
      ensures lock == if acquired then Some(now + ttl) else old(lock)
    {
      acquired := lock.None? || lock.value <= now;
      if acquired {
        lock := Some(now + ttl);
      }
    }

    method Release()
      modifies this`lock
      ensures lock == None
    {
      lock := None;
    }

    method Update(account: MailAccount)
      modifies this`row
      ensures row == account.Value()
    {
      row := account.Value();
    }
  }

  method Adopt(account: MailAccount, stored: Account)
    modifies account
    ensures account.Value() == Adopted(old(account.Value()), stored)
    ensures account.credentials == stored.credentials && account.tokenExpiresAt == stored.tokenExpiresAt
    ensures account.scopes == stored.scopes
    ensures account.oauth == old(account.oauth) && account.status == old(account.status)
    ensures account.lastError == old(account.lastError) && account.syncState == old(account.syncState)
  {
    account.credentials := stored.credentials;
    account.tokenExpiresAt := stored.tokenExpiresAt;
    account.scopes := stored.scopes;
  }

  method StoreGrant(store: Store, account: MailAccount, grant: Grant)
    modifies account, store`row
    ensures account.Value() == Renewed(old(account.Value()), grant)
    ensures store.row == account.Value()
    ensures store.row.credentials
            == Credentials(old(account.credentials.username), old(account.credentials.password), grant.accessToken,
                           if grant.refreshToken == "" then old(account.credentials.refreshToken)
                           else grant.refreshToken)
    ensures store.row.tokenExpiresAt == if 0 < grant.expiresAt then Some(grant.expiresAt)
                                        else old(account.tokenExpiresAt)
  {
    var credentials := account.credentials;
    credentials := credentials.(accessToken := grant.accessToken);
    if grant.refreshToken != "" {
      credentials := credentials.(refreshToken := grant.refreshToken);
    }
    account.credentials := credentials;
    if grant.expiresAt > 0 {
      account.tokenExpiresAt := Some(grant.expiresAt);
    }
    if grant.scopes != "" {
      account.scopes := Some(grant.scopes);
    }
    store.Update(account);
  }

  method HandleRefreshFailure(store: Store, account: MailAccount, revoked: bool)
    modifies account, store`row
    ensures revoked ==> account.Value() == Parked(old(account.Value())) && store.row == account.Value()
    ensures !revoked ==> account.Value() == old(account.Value()) && store.row == old(store.row)
  {
    if !revoked {
      return;
    }
    account.status := Broken;
    account.lastError := Some(WITHDRAWN);
    store.Update(account);
  }

  /** The settings form: load, merge what was typed into the decrypted credentials, save the row. */
  method EditCredentials(store: Store, username: string, password: string)
    modifies store`row
    ensures store.row == Edited(old(store.row), username, password)
    ensures store.row.credentials.username == if username == "" then old(store.row.credentials.username) else username
    ensures store.row.credentials.password == if password == "" then old(store.row.credentials.password) else password
    ensures store.row.status == if username == "" && password == "" then old(store.row.status) else Unverified
  {
    var account := new MailAccount(store.row);
    if password != "" || username != "" {
      var credentials := account.credentials;
      if username != "" {
        credentials := credentials.(username := username);
      }
      if password != "" {
        credentials := credentials.(password := password);
      }
      account.credentials := credentials;
      account.status := Unverified;
    }
    store.Update(account);
  }

  /** Which mailbox a row or a consent is about. */
  datatype Mailbox = Mailbox(email: string, provider: string)

  /** Consent for a mailbox that is already connected: refused if it turns out to be another mailbox. */
  method Reconnect(store: Store, known: Mailbox, consented: Mailbox, grant: Grant) returns (ok: bool)
    modifies store`row
    ensures ok <==> consented.email != "" && known == consented
    ensures store.row == if ok then Reconnected(old(store.row), grant) else old(store.row)
    ensures ok ==>
              && store.row.oauth && store.row.status == Unverified
              && store.row.credentials.accessToken == grant.accessToken
              && store.row.credentials.username == old(store.row.credentials.username)
              && store.row.credentials.password == old(store.row.credentials.password)
              && store.row.credentials.refreshToken
                 == if grant.refreshToken == "" then old(store.row.credentials.refreshToken) else grant.refreshToken
  {
    if consented.email == "" || known.email != consented.email || known.provider != consented.provider {
      return false;
    }
    var account := new MailAccount(store.row);
    var credentials := account.credentials;
    credentials := credentials.(accessToken := grant.accessToken);
    if grant.refreshToken != "" {
      credentials := credentials.(refreshToken := grant.refreshToken);
    }
    account.oauth := true;
    account.credentials := credentials;
    account.scopes := if grant.scopes == "" then None else Some(grant.scopes);
    account.lastError := None;
    account.status := Unverified;
    if grant.expiresAt > 0 {
      account.tokenExpiresAt := Some(grant.expiresAt);
    }
    store.Update(account);
    ok := true;
  }

  /** The first of the bounded reads that finds a token outside its window. Waiting ends early, with
      nothing, at a read that finds no row or comes after the caller gave up. */
  function FirstUsable(seen: seq<Option<Account>>, times: seq<int>): Option<Account>
    requires |seen| == |times|
    decreases |seen|
  {
    if seen == [] || seen[0].None? then None
    else if !NeedsRefresh(seen[0].value, times[0]) then seen[0]
    else FirstUsable(seen[1..], times[1..])
  }

  lemma {:induction false} FirstUsableSkips(seen: seq<Option<Account>>, times: seq<int>, i: nat)
    requires |seen| == |times| && i <= |seen|
    requires forall k :: 0 <= k < i ==> seen[k].Some? && NeedsRefresh(seen[k].value, times[k])
    ensures FirstUsable(seen, times) == FirstUsable(seen[i..], times[i..])
    decreases i
  {
    if i > 0 {
      FirstUsableSkips(seen[1..], times[1..], i - 1);
      assert seen[1..][i - 1..] == seen[i..] && times[1..][i - 1..] == times[i..];
    }
  }

  /** awaitRefresh: eight reads of whatever the other workers have stored by then. */
  method AwaitRefresh(account: MailAccount, seen: seq<Option<Account>>, times: seq<int>) returns (adopted: bool)
    requires |seen| == |times| == 8
    modifies account
    ensures adopted <==> FirstUsable(seen, times).Some?
    ensures account.Value() == if adopted then Adopted(old(account.Value()), FirstUsable(seen, times).value)
                               else old(account.Value())
  {
    for i := 0 to AWAIT_ATTEMPTS
      invariant forall k :: 0 <= k < i ==> seen[k].Some? && NeedsRefresh(seen[k].value, times[k])
      invariant account.Value() == old(account.Value())
    {
      FirstUsableSkips(seen, times, i);
      if seen[i].None? {
        return false;
      }
      if !NeedsRefresh(seen[i].value, times[i]) {
        Adopt(account, seen[i].value);
        return true;
      }
    }
    FirstUsableSkips(seen, times, AWAIT_ATTEMPTS);
    adopted := false;
  }

  /** How refresh() ends for the caller. */
  datatype Refresh = Fine | NotConfigured | Unreadable | Withdrawn | TryLater

  /** What a refresh with the lock free and nobody interfering leaves in the caller's struct and the row. */
  function Refreshed(a: Account, row: Account, now: int, configured: bool, readable: bool, answer: Answer)
    : (Refresh, Account, Account)
  {
    if !NeedsRefresh(a, now) then (Fine, a, row)
    else if !configured then (NotConfigured, a, row)
    else if !NeedsRefresh(row, now) then (Fine, Adopted(a, row), row)
    else if !readable then (Unreadable, a, row)
    else match answer
         case Granted(grant) => (Fine, Renewed(a, grant), Renewed(a, grant))
         case Revoked => (Withdrawn, Parked(a), Parked(a))
         case Unavailable => (TryLater, a, row)
  }

  /** refresh() on an uncontended lock. It is released on every way out. */
  method RefreshAlone(store: Store, account: MailAccount, now: int, configured: bool, readable: bool, answer: Answer)
    returns (result: Refresh)
    requires store.lock.None? || store.lock.value <= now
    modifies account, store
    ensures (result, account.Value(), store.row)
            == Refreshed(old(account.Value()), old(store.row), now, configured, readable, answer)
    ensures store.lock == None || store.lock == old(store.lock)
    ensures NeedsRefresh(old(account.Value()), now) && configured ==> store.lock == None
  {
    if !NeedsRefresh(account.Value(), now) {
      return Fine;
    }
    if !configured {
      return NotConfigured;
    }
    var acquired := store.Acquire(now, LOCK_TTL_MS);
    assert acquired;
    var stored := store.row;
    if !NeedsRefresh(stored, now) {
      Adopt(account, stored);
      store.Release();
      return Fine;
    }
    if !readable {
      store.Release();
      return Unreadable;
    }
    if answer.Granted? {
      StoreGrant(store, account, answer.grant);
      result := Fine;
    } else {
      HandleRefreshFailure(store, account, answer.Revoked?);
      result := if answer.Revoked? then Withdrawn else TryLater;
    }
    store.Release();
  }

  /** A refresh that ends well and was needed leaves the caller with the stored token; one that ends badly
      leaves it with its own. The stored credentials change only by a grant, spent while they are inside the
      window, and then the row is the caller's struct. */
  lemma RefreshedMeans(a: Account, row: Account, now: int, configured: bool, readable: bool, answer: Answer)
    ensures var (result, after, stored) := Refreshed(a, row, now, configured, readable, answer);
            && (result == Fine && NeedsRefresh(a, now) ==>
                  after.credentials == stored.credentials && after.tokenExpiresAt == stored.tokenExpiresAt)
            && (result != Fine ==> after.credentials == a.credentials)
            && (!NeedsRefresh(a, now) ==> result == Fine && after == a && stored == row)
            && (NeedsRefresh(a, now) && !configured ==> result == NotConfigured && after == a && stored == row)
            && (NeedsRefresh(a, now) && configured && NeedsRefresh(row, now) && !readable ==>
                  result == Unreadable && after == a && stored == row)
            && (stored != row && result == Fine ==> answer.Granted? && NeedsRefresh(row, now) && after == stored)
            && (result == Fine && NeedsRefresh(a, now) && NeedsRefresh(row, now) ==>
                  && answer.Granted? && stored == after
                  && stored.credentials.accessToken == answer.grant.accessToken
                  && (answer.grant.refreshToken != "" ==> stored.credentials.refreshToken == answer.grant.refreshToken)
                  && (0 < answer.grant.expiresAt ==> stored.tokenExpiresAt == Some(answer.grant.expiresAt)))
            && (NeedsRefresh(a, now) && configured && NeedsRefresh(row, now) && readable ==>
                  && (result == Fine <==> answer.Granted?) && (result == Withdrawn <==> answer.Revoked?)
                  && (result == TryLater ==> stored == row && after == a)
                  && (result == Withdrawn ==> stored.status == Broken))
  {
  }
}
