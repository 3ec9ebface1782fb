/** Claiming the mailboxes whose poll came around. The claim moves next_poll_at forward in the row only; the
    struct the sync works on, and later saves whole, still holds the value from before. */
module Polling {
  /** The columns of mail_accounts a poll reads and writes. */
  datatype Account = Account(verified: bool, nextPollAt: int, intervalSeconds: nat)

  type Accounts = map<string, Account>

  /** How SyncAccount leaves the account: saved after the last message, saved as failed after the fetch
      failed, or not saved because something before or between them failed. */
  datatype Outcome = Stored | FetchFailed | Abandoned

  predicate DueAt(a: Account, now: int) {
    a.verified && a.nextPollAt <= now
  }

  function Interval(a: Account): nat {
    a.intervalSeconds * 1000
  }

  /** A legal answer of FindDue: due rows no other transaction has locked, oldest first, up to the limit. */
  ghost predicate IsDueList(rows: Accounts, now: int, limit: nat, locked: set<string>, picked: seq<string>) {
    && |picked| <= limit
    && (forall i :: 0 <= i < |picked| ==> picked[i] in rows && DueAt(rows[picked[i]], now) && picked[i] !in locked)
    && (forall i, j :: 0 <= i < j < |picked| ==>
          picked[i] != picked[j] && rows[picked[i]].nextPollAt <= rows[picked[j]].nextPollAt)
    && (forall id :: id in rows && DueAt(rows[id], now) && id !in locked && id !in picked ==>
          |picked| == limit && forall i :: 0 <= i < |picked| ==> rows[picked[i]].nextPollAt <= rows[id].nextPollAt)
  }

  predicate Ascending(clock: seq<int>, from: int) {
    && (forall i :: 0 <= i < |clock| ==> from <= clock[i])
    && (forall i, j :: 0 <= i < j < |clock| ==> clock[i] <= clock[j])
  }

  function Pushed(rows: Accounts, picked: seq<string>, clock: seq<int>): Accounts
    requires |clock| == |picked|
  {
    map id | id in rows ::
      if id in picked then rows[id].(nextPollAt := ReadingOf(picked, clock, id) + Interval(rows[id])) else rows[id]
  }

  /** The clock reading the claim used for this account. */
  function ReadingOf(picked: seq<string>, clock: seq<int>, id: string): int
    requires |clock| == |picked| && id in picked
  {
    if picked[0] == id then clock[0] else ReadingOf(picked[1..], clock[1..], id)
  }

  lemma {:induction false} ReadingAt(picked: seq<string>, clock: seq<int>, i: nat)
    requires |clock| == |picked| && i < |picked|
    requires forall i, j :: 0 <= i < j < |picked| ==> picked[i] != picked[j]
    ensures ReadingOf(picked, clock, picked[i]) == clock[i]
  {
    if i > 0 {
      ReadingAt(picked[1..], clock[1..], i - 1);
    }
  }

  /** The row after the save, if there is one: the whole struct, old next_poll_at included. */
  function Saved(row: Account, snapshot: Account, outcome: Outcome): Account {
    match outcome
    case Stored => snapshot
    case FetchFailed => snapshot.(verified := false)
    case Abandoned => row
  }

  // ---------------------------------------------------------------- the methods

  class MailAccount {
    const id: string
    const intervalSeconds: nat
    var verified: bool
    var nextPollAt: int

    function Value(): Account
      reads this
    {
      Account(verified, nextPollAt, intervalSeconds)
    }

    constructor (id: string, row: Account)
      ensures this.id == id && Value() == row
    {
      this.id := id;
      intervalSeconds := row.intervalSeconds;
      verified := row.verified;
      nextPollAt := row.nextPollAt;
    }
  }

  class Worker {
    var rows: Accounts

    constructor (rows: Accounts)
      ensures this.rows == rows
    {
      this.rows := rows;
    }

    /** The claim transaction: structs as read, then one column update per row. */
    method Claim(picked: seq<string>, clock: seq<int>) returns (accounts: seq<MailAccount>)
      requires |clock| == |picked|
      requires forall i :: 0 <= i < |picked| ==> picked[i] in rows
      requires forall i, j :: 0 <= i < j < |picked| ==> picked[i] != picked[j]
      modifies this
      ensures rows == Pushed(old(rows), picked, clock)
      ensures rows.Keys == old(rows).Keys
      ensures forall i :: 0 <= i < |picked| ==>
                rows[picked[i]] == old(rows)[picked[i]].(
                                     nextPollAt := clock[i] + 1000 * old(rows)[picked[i]].intervalSeconds)
      ensures forall id :: id in rows && id !in picked ==> rows[id] == old(rows)[id]
      ensures |accounts| == |picked| && fresh(accounts)
      ensures forall i :: 0 <= i < |picked| ==>
                accounts[i].id == picked[i] && accounts[i].Value() == old(rows)[picked[i]]
      ensures forall i, j :: 0 <= i < j < |picked| ==> accounts[i] != accounts[j]
    {
      accounts := [];
      for i := 0 to |picked|
        invariant rows == old(rows) && |accounts| == i && fresh(accounts)
        invariant forall j :: 0 <= j < i ==> accounts[j].id == picked[j] && accounts[j].Value() == rows[picked[j]]
        invariant forall j, k :: 0 <= j < k < i ==> accounts[j] != accounts[k]
      {
        var account := new MailAccount(picked[i], rows[picked[i]]);
        accounts := accounts + [account];
      }
      for i := 0 to |accounts|
        invariant rows.Keys == old(rows).Keys
        invariant forall j :: 0 <= j < |picked| ==> accounts[j].Value() == old(rows)[picked[j]]
        invariant forall j :: 0 <= j < i ==>
                    rows[picked[j]] == old(rows)[picked[j]].(nextPollAt := clock[j] + Interval(old(rows)[picked[j]]))
        invariant forall id :: id in rows && id !in picked[..i] ==> rows[id] == old(rows)[id]
      {
        var next := clock[i] + accounts[i].intervalSeconds * 1000;
        rows := rows[accounts[i].id := rows[accounts[i].id].(nextPollAt := next)];
      }
      forall i | 0 <= i < |picked| ensures ReadingOf(picked, clock, picked[i]) == clock[i] {
        ReadingAt(picked, clock, i);
      }
    }

    /** The end of SyncAccount: Repository.Update replaces the whole row. */
    method Finish(account: MailAccount, outcome: Outcome)
      requires account.id in rows
      modifies this, account
      ensures rows == old(rows)[account.id := Saved(old(rows)[account.id], old(account.Value()), outcome)]
    {
      if outcome.Abandoned? {
        return;
      }
      if outcome.FetchFailed? {
        account.verified := false;
      }
      rows := rows[account.id := account.Value()];
    }

    /** PollDue with nothing in between: every account whose sync was stored is back where it was, still due. */
    method PollDue(picked: seq<string>, clock: seq<int>, outcomes: seq<Outcome>) returns (claimed: nat)
      requires |clock| == |picked| == |outcomes|
      requires forall i :: 0 <= i < |picked| ==> picked[i] in rows
      requires forall i, j :: 0 <= i < j < |picked| ==> picked[i] != picked[j]
      modifies this
      ensures claimed == |picked| && rows.Keys == old(rows).Keys
      ensures forall id :: id in rows && id !in picked ==> rows[id] == old(rows)[id]
      ensures forall i :: 0 <= i < |picked| ==>
                var row := old(rows)[picked[i]];
                rows[picked[i]] == match outcomes[i]
                                   case Stored => row
                                   case FetchFailed => row.(verified := false)
                                   case Abandoned => row.(nextPollAt := clock[i] + Interval(row))
    {
      var accounts := Claim(picked, clock);
      claimed := |accounts|;
      forall i | 0 <= i < |picked| ensures ReadingOf(picked, clock, picked[i]) == clock[i] {
        ReadingAt(picked, clock, i);
      }
      ghost var pushed := rows;
      for i := 0 to |accounts|
        invariant rows.Keys == pushed.Keys
        invariant forall j :: i <= j < |accounts| ==> accounts[j].Value() == old(rows)[picked[j]]
        invariant forall j :: 0 <= j < i ==>
                    rows[picked[j]] == Saved(pushed[picked[j]], old(rows)[picked[j]], outcomes[j])
        invariant forall id :: id in rows && id !in picked[..i] ==> rows[id] == pushed[id]
      {
        Finish(accounts[i], outcomes[i]);
      }
    }
  }

  // ------------------------------------------------------------- several pollers

  datatype Hold = Hold(id: string, snapshot: Account, claimedAt: int, active: bool)

  datatype State = State(now: int, rows: Accounts, holds: seq<Hold>)

  datatype Label =
    | Tick(to: int)
    | Claim(limit: nat, locked: set<string>, picked: seq<string>, clock: seq<int>)
    | Finish(slot: nat, outcome: Outcome)

  ghost predicate Enabled(s: State, l: Label) {
    match l
    case Tick(to) => s.now <= to
    case Claim(limit, locked, picked, clock) =>
      IsDueList(s.rows, s.now, limit, locked, picked) && |clock| == |picked| && Ascending(clock, s.now)
    case Finish(slot, _) => slot < |s.holds| && s.holds[slot].active && s.holds[slot].id in s.rows
  }

  ghost function Apply(s: State, l: Label): State
    requires Enabled(s, l)
  {
    match l
    case Tick(to) => s.(now := to)
    case Claim(_, _, picked, clock) =>
      State(if picked == [] then s.now else clock[|clock| - 1],
            Pushed(s.rows, picked, clock),
            s.holds + seq(|picked|, i requires 0 <= i < |picked| => Hold(picked[i], s.rows[picked[i]], clock[i], true)))
    case Finish(slot, outcome) =>
      var h := s.holds[slot];
      s.(rows := s.rows[h.id := Saved(s.rows[h.id], h.snapshot, outcome)],
         holds := s.holds[slot := h.(active := false)])
  }

  /** Every sync still under way is inside the interval its claim opened. */
  ghost predicate InTime(s: State) {
    forall i :: 0 <= i < |s.holds| && s.holds[i].active ==> s.now < s.holds[i].claimedAt + Interval(s.holds[i].snapshot)
  }

  /** A run of pollers in which no sync outlives its interval. */
  ghost predicate LegalInTime(s: State, tr: seq<Label>)
    decreases |tr|
  {
    InTime(s) && (tr == [] || (Enabled(s, tr[0]) && LegalInTime(Apply(s, tr[0]), tr[1..])))
  }

  ghost function Exec(s: State, tr: seq<Label>): State
    requires LegalInTime(s, tr)
    decreases |tr|
  {
    if tr == [] then s else Exec(Apply(s, tr[0]), tr[1..])
  }

  ghost predicate HoldOk(s: State, i: int)
    requires 0 <= i < |s.holds|
  {
    var h := s.holds[i];
    h.active ==>
      && h.id in s.rows && h.claimedAt <= s.now && DueAt(h.snapshot, h.claimedAt)
      && s.rows[h.id] == h.snapshot.(nextPollAt := h.claimedAt + Interval(h.snapshot))
  }

  ghost predicate OneSyncEach(s: State) {
    forall i, j :: 0 <= i < j < |s.holds| && s.holds[i].active && s.holds[j].active ==> s.holds[i].id != s.holds[j].id
  }

  ghost predicate Inv(s: State) {
    (forall i :: 0 <= i < |s.holds| ==> HoldOk(s, i)) && OneSyncEach(s)
  }

  lemma ClaimStep(s: State, l: Label)
    requires Inv(s) && InTime(s) && l.Claim? && Enabled(s, l)
    ensures Inv(Apply(s, l))
  {
    var t := Apply(s, l);
    var n := |s.holds|;
    forall i | 0 <= i < |l.picked| ensures ReadingOf(l.picked, l.clock, l.picked[i]) == l.clock[i] {
      ReadingAt(l.picked, l.clock, i);
    }
    forall i | 0 <= i < n && s.holds[i].active ensures s.holds[i].id !in l.picked {
      assert HoldOk(s, i);
    }
    forall i | 0 <= i < |t.holds| ensures HoldOk(t, i) {
      if i < n {
        assert HoldOk(s, i) && t.holds[i] == s.holds[i];
      } else {
        assert t.holds[i].id == l.picked[i - n];
      }
    }
    forall i, j | 0 <= i < j < |t.holds| && t.holds[i].active && t.holds[j].active
      ensures t.holds[i].id != t.holds[j].id
    {
      if j >= n {
        assert t.holds[j].id == l.picked[j - n];
        if i >= n {
          assert t.holds[i].id == l.picked[i - n];
        } else {
          assert t.holds[i] == s.holds[i];
        }
      }
    }
  }

  lemma InvStep(s: State, l: Label)
    requires Inv(s) && InTime(s) && Enabled(s, l)
    ensures Inv(Apply(s, l))
  {
    if l.Claim? {
      ClaimStep(s, l);
    } else {
      forall i | 0 <= i < |s.holds| ensures HoldOk(Apply(s, l), i) {
        assert HoldOk(s, i);
      }
    }
  }

  lemma {:induction false} InvRun(s: State, tr: seq<Label>)
    requires Inv(s) && LegalInTime(s, tr)
    ensures Inv(Exec(s, tr)) && InTime(Exec(s, tr))
    decreases |tr|
  {
    if tr != [] {
      InvStep(s, tr[0]);
      InvRun(Apply(s, tr[0]), tr[1..]);
    }
  }

  function Start(now: int, rows: Accounts): State {
    State(now, rows, [])
  }

  /** However many pollers share the table: while no sync outlives its interval, no mailbox is synced twice
      at once, although every save puts the old next_poll_at back. */
  lemma NoMailboxTwiceAtOnce(now: int, rows: Accounts, tr: seq<Label>, i: nat, j: nat)
    requires LegalInTime(Start(now, rows), tr)
    requires var s := Exec(Start(now, rows), tr);
             i < |s.holds| && j < |s.holds| && s.holds[i].active && s.holds[j].active && s.holds[i].id == s.holds[j].id
    ensures i == j
  {
    InvRun(Start(now, rows), tr);
  }

  /** The interval is all that protects a sync: at a later moment its mailbox can be claimed again exactly
      when the sync has run for the whole interval. */
  lemma HeldIsDueIffOverrun(now: int, rows: Accounts, tr: seq<Label>, i: nat, to: int)
    requires LegalInTime(Start(now, rows), tr)
    requires var s := Exec(Start(now, rows), tr); i < |s.holds| && s.holds[i].active && s.now <= to
    ensures var s := Exec(Start(now, rows), tr);
            var h := s.holds[i];
            h.id in s.rows && (DueAt(s.rows[h.id], to) <==> h.claimedAt + Interval(h.snapshot) <= to)
  {
    InvRun(Start(now, rows), tr);
    assert HoldOk(Exec(Start(now, rows), tr), i);
  }

  /** The claim does not space the polls: after a sync the account is due again at once exactly when the sync
      was stored. */
  lemma DueAgainIffStored(now: int, rows: Accounts, tr: seq<Label>, i: nat, outcome: Outcome)
    requires LegalInTime(Start(now, rows), tr) && Enabled(Exec(Start(now, rows), tr), Finish(i, outcome))
    ensures var s := Exec(Start(now, rows), tr);
            DueAt(Apply(s, Finish(i, outcome)).rows[s.holds[i].id], s.now) <==> outcome == Stored
  {
    InvRun(Start(now, rows), tr);
    assert HoldOk(Exec(Start(now, rows), tr), i);
  }

  function ClaimAndStore(id: string, now: int, slot: nat, n: nat): (tr: seq<Label>)
    ensures |tr| == 2 * n
    decreases n
  {
    if n == 0 then []
    else [Claim(1, {}, [id], [now]), Finish(slot, Stored)] + ClaimAndStore(id, now, slot + 1, n - 1)
  }

  /** One due account can be polled any number of times inside a single interval, at one and the same instant
      even; the count per interval has no bound. */
  lemma {:induction false} NotOncePerInterval(s: State, id: string, account: Account, n: nat)
    requires DueAt(account, s.now) && 0 < account.intervalSeconds && s.rows == map[id := account]
    requires forall i :: 0 <= i < |s.holds| ==> !s.holds[i].active
    ensures LegalInTime(s, ClaimAndStore(id, s.now, |s.holds|, n))
    ensures var t := Exec(s, ClaimAndStore(id, s.now, |s.holds|, n));
            t.now == s.now && |t.holds| == |s.holds| + n
    decreases n
  {
    if n > 0 {
      var tr := ClaimAndStore(id, s.now, |s.holds|, n);
      var s1 := Apply(s, tr[0]);
      assert tr[1..][0] == Finish(|s.holds|, Stored);
      var s2 := Apply(s1, tr[1]);
      assert s2.rows == s.rows;
      assert tr[1..][1..] == ClaimAndStore(id, s.now, |s.holds| + 1, n - 1);
      NotOncePerInterval(s2, id, account, n - 1);
      assert LegalInTime(s1, tr[1..]);
    }
  }
}
