/** What holds of every repeat chain: numbering, ownership, and, without manual Retry, order, attempt
    budgets and at-most-once delivery. */
module Chains {
  import opened Common
  import opened Notify
  import opened Runs
  import opened Queue

  // ------------------------------------------------------------- numbering

  /** Occurrence numbers present for a chain, counted upwards from `from`. */
  ghost function Remaining(rows: Rows, c: Chain, from: int): set<Key> {
    set k | k in rows && k.chain == c && from <= k.occ
  }

  ghost function LengthFrom(rows: Rows, c: Chain, from: int): (n: int)
    ensures from - 1 <= n
    ensures forall m :: from <= m <= n ==> Key(c, m) in rows
    ensures Key(c, n + 1) !in rows
    decreases Remaining(rows, c, from)
  {
    if Key(c, from) in rows then
      assert Key(c, from) in Remaining(rows, c, from) && Key(c, from) !in Remaining(rows, c, from + 1);
      assert Remaining(rows, c, from + 1) <= Remaining(rows, c, from);
      LengthFrom(rows, c, from + 1)
    else from - 1
  }

  /** How many occurrences a chain has. */
  ghost function Length(rows: Rows, c: Chain): nat {
    LengthFrom(rows, c, 1)
  }

  lemma {:induction false} DownClosed(rows: Rows, c: Chain, m: int, n: int)
    requires Contiguous(rows) && 1 <= m <= n && Key(c, n) in rows
    ensures Key(c, m) in rows
    decreases n - m
  {
    if m < n {
      assert KeyOk(rows, Key(c, n));
      DownClosed(rows, c, m, n - 1);
    }
  }

  /** The occurrences of a chain are exactly 1..n. */
  lemma NumberedFromOne(rows: Rows, c: Chain, m: int)
    requires Contiguous(rows)
    ensures Key(c, m) in rows <==> 1 <= m <= Length(rows, c)
  {
    var n := Length(rows, c);
    assert KeyOk(rows, Key(c, m));
    if Key(c, m) in rows && n < m {
      DownClosed(rows, c, n + 1, m);
    }
  }

  // --------------------------------------------------- invariants without Retry

  ghost predicate OrderOk(rows: Rows, k: Key) {
    k in rows && 1 < k.occ && Key(k.chain, k.occ - 1) in rows ==>
      var before := rows[Key(k.chain, k.occ - 1)];
      before.status == Succeeded && before.maxAttempts == rows[k].maxAttempts
  }

  /** Occurrence n + 1 exists only after occurrence n succeeded. */
  ghost predicate Ordered(rows: Rows) {
    forall k :: OrderOk(rows, k)
  }

  ghost predicate RunOk(run: Run) {
    && run.attempt <= Max(1, run.maxAttempts)
    && (run.status == Pending || run.status == Running ==> run.attempt == 0 || run.attempt < run.maxAttempts)
    && (run.status == Pending ==> run.finishedAt.None?)
    && (run.status == Pending && run.attempt > 0 ==> run.nextRetryAt == Some(run.scheduledAt))
    && (run.status == Succeeded || run.status == Failed ==> run.finishedAt.Some? && 1 <= run.attempt)
  }

  ghost predicate Budgets(rows: Rows) {
    forall k :: k in rows ==> RunOk(rows[k])
  }

  /** The struct a worker holds still agrees with the row on everything but the acknowledgement. */
  ghost predicate TracksOk(s: State, i: int)
    requires 0 <= i < |s.attempts| && SlotOk(s, i)
  {
    var a := s.attempts[i];
    var row := s.rows[a.claimed.key];
    && a.claimed.status == Pending && a.claimed.scheduledAt <= a.at && RunOk(a.claimed)
    && a.claimed.maxAttempts == row.maxAttempts
    && (a.phase.Working? ==>
          && row.attempt == a.claimed.attempt
          && row.scheduledAt == a.claimed.scheduledAt)
    && (a.phase.Following? ==>
          && row.status == Succeeded
          && a.phase.run.maxAttempts == row.maxAttempts
          && a.phase.run.finishedAt == row.finishedAt)
  }

  ghost predicate Tracks(s: State)
    requires Slots(s)
  {
    forall i :: 0 <= i < |s.attempts| ==> SlotOk(s, i) && TracksOk(s, i)
  }

  ghost function Count(attempts: seq<Attempt>, k: Key): nat {
    if attempts == [] then 0
    else (if attempts[|attempts| - 1].claimed.key == k then 1 else 0) + Count(attempts[..|attempts| - 1], k)
  }

  ghost predicate CountOk(s: State, k: Key) {
    if k in s.rows
    then Count(s.attempts, k) == s.rows[k].attempt + (if s.rows[k].status == Running then 1 else 0)
    else Count(s.attempts, k) == 0
  }

  /** The attempt column counts the claims of the run. */
  ghost predicate Counted(s: State) {
    forall k :: CountOk(s, k)
  }

  ghost predicate DistinctNotifiers(ds: seq<Delivery>) {
    forall d, e :: 0 <= d < e < |ds| ==> ds[d].notifierId != ds[e].notifierId
  }

  ghost predicate SentOk(s: State, i: int)
    requires 0 <= i < |s.attempts| && SlotOk(s, i)
  {
    && DistinctNotifiers(s.attempts[i].deliveries)
    && (HasSent(s.attempts[i].deliveries) ==>
          s.rows[s.attempts[i].claimed.key].status == Succeeded && !s.attempts[i].phase.Working?)
  }

  ghost predicate SentAt(attempts: seq<Attempt>, i: int, k: Key) {
    0 <= i < |attempts| && attempts[i].claimed.key == k && HasSent(attempts[i].deliveries)
  }

  ghost predicate SentOnce(s: State)
    requires Slots(s)
  {
    && (forall i :: 0 <= i < |s.attempts| ==> SlotOk(s, i) && SentOk(s, i))
    && (forall i, j, k :: SentAt(s.attempts, i, k) && SentAt(s.attempts, j, k) ==> i == j)
  }

  ghost predicate Good(s: State) {
    Shape(s) && Ordered(s.rows) && Budgets(s.rows) && Tracks(s) && Counted(s) && SentOnce(s)
  }

  // ------------------------------------------------------------- preservation

  /** What the run settled by a worker has in common with the row it overwrites. */
  lemma SettleFacts(s: State, l: Label)
    requires Shape(s) && Tracks(s) && Enabled(s, l) && l.Settle?
    ensures var a := s.attempts[l.slot].claimed;
            var run := Settled(a, l.started, l.at, l.outcome);
            && run.key == a.key && a.key in s.rows && s.rows[a.key].status == Running
            && run.maxAttempts == s.rows[a.key].maxAttempts && run.attempt == s.rows[a.key].attempt + 1
            && run.status != Running && run.status != Cancelled && RunOk(run)
            && Apply(s, l).rows == s.rows[a.key := run]
  {
    assert SlotOk(s, l.slot) && TracksOk(s, l.slot);
  }

  lemma FollowFacts(s: State, l: Label)
    requires Shape(s) && Tracks(s) && Enabled(s, l) && l.Follow?
    ensures var a := s.attempts[l.slot];
            && a.claimed.key in s.rows && s.rows[a.claimed.key].status == Succeeded
            && a.phase.run.key == a.claimed.key && a.phase.run.maxAttempts == s.rows[a.claimed.key].maxAttempts
  {
    assert SlotOk(s, l.slot) && TracksOk(s, l.slot);
  }

  lemma OrderOkStep(s: State, l: Label, k: Key)
    requires Shape(s) && Tracks(s) && Ordered(s.rows) && Enabled(s, l) && !l.Retry?
    ensures OrderOk(Apply(s, l).rows, k)
  {
    if l.Settle? { SettleFacts(s, l); }
    if l.Follow? { FollowFacts(s, l); }
    assert KeyOk(s.rows, k) && OrderOk(s.rows, k);
    assert KeyOk(s.rows, Key(k.chain, k.occ - 1));
  }

  lemma OrderedStep(s: State, l: Label)
    requires Shape(s) && Tracks(s) && Ordered(s.rows) && Enabled(s, l) && !l.Retry?
    ensures Ordered(Apply(s, l).rows)
  {
    forall k ensures OrderOk(Apply(s, l).rows, k) { OrderOkStep(s, l, k); }
  }

  lemma BudgetsStep(s: State, l: Label)
    requires Shape(s) && Tracks(s) && Budgets(s.rows) && Enabled(s, l) && !l.Retry?
    ensures Budgets(Apply(s, l).rows)
  {
    forall k | k in Apply(s, l).rows ensures RunOk(Apply(s, l).rows[k]) {
      if l.Settle? { SettleFacts(s, l); }
    }
  }

  lemma TracksOkSettle(s: State, l: Label, i: int)
    requires Shape(s) && Tracks(s) && Enabled(s, l) && l.Settle? && Slots(Apply(s, l))
    requires 0 <= i < |s.attempts|
    ensures SlotOk(Apply(s, l), i) && TracksOk(Apply(s, l), i)
  {
    assert SlotOk(Apply(s, l), i);
    assert SlotOk(s, i) && TracksOk(s, i);
    SettleFacts(s, l);
    if i != l.slot && s.attempts[i].phase.Working? {
      assert Works(s.attempts, i, s.attempts[i].claimed.key);
      assert !Works(s.attempts, l.slot, s.attempts[i].claimed.key);
    }
  }

  lemma TracksOkStep(s: State, l: Label, i: int)
    requires Shape(s) && Tracks(s) && Budgets(s.rows) && Enabled(s, l) && !l.Retry? && Slots(Apply(s, l))
    requires 0 <= i < |Apply(s, l).attempts|
    ensures SlotOk(Apply(s, l), i) && TracksOk(Apply(s, l), i)
  {
    assert SlotOk(Apply(s, l), i);
    if l.Settle? {
      TracksOkSettle(s, l, i);
    } else if i < |s.attempts| {
      assert SlotOk(s, i) && TracksOk(s, i);
    } else {
      assert KeyOk(s.rows, l.picked[i - |s.attempts|]);
    }
  }

  lemma TracksStep(s: State, l: Label)
    requires Shape(s) && Tracks(s) && Budgets(s.rows) && Enabled(s, l) && !l.Retry?
    ensures Slots(Apply(s, l)) && Tracks(Apply(s, l))
  {
    SlotsStep(s, l);
    forall i | 0 <= i < |Apply(s, l).attempts| ensures SlotOk(Apply(s, l), i) && TracksOk(Apply(s, l), i) {
      TracksOkStep(s, l, i);
    }
  }

  lemma {:induction false} CountAppend(a: seq<Attempt>, b: seq<Attempt>, k: Key)
    ensures Count(a + b, k) == Count(a, k) + Count(b, k)
    decreases |b|
  {
    if b == [] {
      assert a + b == a;
    } else {
      assert (a + b)[..|a + b| - 1] == a + b[..|b| - 1];
      CountAppend(a, b[..|b| - 1], k);
    }
  }

  lemma {:induction false} CountSame(a: seq<Attempt>, b: seq<Attempt>, k: Key)
    requires |a| == |b| && forall i :: 0 <= i < |a| ==> a[i].claimed == b[i].claimed
    ensures Count(a, k) == Count(b, k)
    decreases |a|
  {
    if a != [] {
      CountSame(a[..|a| - 1], b[..|b| - 1], k);
    }
  }

  lemma {:induction false} CountClaims(rows: Rows, picked: seq<Key>, at: int, k: Key)
    requires Contiguous(rows)
    requires forall i :: 0 <= i < |picked| ==> picked[i] in rows
    requires forall i, j :: 0 <= i < j < |picked| ==> picked[i] != picked[j]
    ensures Count(ClaimAttempts(rows, picked, at), k) == if k in picked then 1 else 0
    decreases |picked|
  {
    if picked != [] {
      var n := |picked| - 1;
      var front := picked[..n];
      CountClaims(rows, front, at, k);
      assert ClaimAttempts(rows, picked, at)[..n] == ClaimAttempts(rows, front, at);
      assert KeyOk(rows, picked[n]);
      assert k in picked <==> k in front || k == picked[n];
    }
  }

  lemma CountOkClaim(s: State, l: Label, k: Key)
    requires Shape(s) && Counted(s) && Enabled(s, l) && l.Claim?
    ensures CountOk(Apply(s, l), k)
  {
    assert CountOk(s, k);
    CountAppend(s.attempts, ClaimAttempts(s.rows, l.picked, l.at), k);
    CountClaims(s.rows, l.picked, l.at, k);
  }

  lemma CountOkSettle(s: State, l: Label, k: Key)
    requires Shape(s) && Tracks(s) && Counted(s) && Enabled(s, l) && l.Settle?
    ensures CountOk(Apply(s, l), k)
  {
    assert CountOk(s, k);
    CountSame(s.attempts, Apply(s, l).attempts, k);
    SettleFacts(s, l);
  }

  lemma CountOkFollow(s: State, l: Label, k: Key)
    requires Shape(s) && Tracks(s) && Counted(s) && Enabled(s, l) && l.Follow?
    ensures CountOk(Apply(s, l), k)
  {
    assert CountOk(s, k);
    CountSame(s.attempts, Apply(s, l).attempts, k);
    FollowFacts(s, l);
  }

  lemma CountOkStep(s: State, l: Label, k: Key)
    requires Shape(s) && Tracks(s) && Counted(s) && Enabled(s, l) && !l.Retry?
    ensures CountOk(Apply(s, l), k)
  {
    if l.Claim? {
      CountOkClaim(s, l, k);
    } else if l.Settle? {
      CountOkSettle(s, l, k);
    } else if l.Follow? {
      CountOkFollow(s, l, k);
    } else {
      assert CountOk(s, k) && KeyOk(s.rows, k);
    }
  }

  lemma CountedStep(s: State, l: Label)
    requires Shape(s) && Tracks(s) && Counted(s) && Enabled(s, l) && !l.Retry?
    ensures Counted(Apply(s, l))
  {
    forall k ensures CountOk(Apply(s, l), k) { CountOkStep(s, l, k); }
  }

  /** What an execution delivers: distinct notifiers, and nothing at all unless the run succeeds. */
  lemma OutcomeFacts(run: Run, started: int, at: int, outcome: Outcome)
    requires ValidOutcome(outcome)
    ensures DistinctNotifiers(OutcomeDeliveries(outcome))
    ensures HasSent(OutcomeDeliveries(outcome)) ==> Settled(run, started, at, outcome).status == Succeeded
  {
    if outcome.Ran? && outcome.job.NotifyJob? {
      ErrorMeansNothingSent(outcome.job.targets);
    }
  }

  lemma SentOkStep(s: State, l: Label, i: int)
    requires Shape(s) && Tracks(s) && SentOnce(s) && Enabled(s, l) && !l.Retry? && Slots(Apply(s, l))
    requires 0 <= i < |Apply(s, l).attempts|
    ensures SlotOk(Apply(s, l), i) && SentOk(Apply(s, l), i)
  {
    assert SlotOk(Apply(s, l), i);
    if i < |s.attempts| { assert SlotOk(s, i) && SentOk(s, i); }
    if l.Settle? {
      SettleFacts(s, l);
      OutcomeFacts(s.attempts[l.slot].claimed, l.started, l.at, l.outcome);
    }
  }

  lemma SentAtStep(s: State, l: Label, i: int, j: int, k: Key)
    requires Shape(s) && Tracks(s) && SentOnce(s) && Enabled(s, l) && !l.Retry?
    requires SentAt(Apply(s, l).attempts, i, k) && SentAt(Apply(s, l).attempts, j, k)
    ensures i == j
  {
    assert i < |s.attempts| && j < |s.attempts|;
    assert SlotOk(s, i) && SentOk(s, i) && SlotOk(s, j) && SentOk(s, j);
    if l.Settle? { SettleFacts(s, l); }
    assert !(l.Settle? && i == l.slot) ==> SentAt(s.attempts, i, k);
    assert !(l.Settle? && j == l.slot) ==> SentAt(s.attempts, j, k);
  }

  lemma SentOnceStep(s: State, l: Label)
    requires Shape(s) && Tracks(s) && SentOnce(s) && Enabled(s, l) && !l.Retry?
    ensures Slots(Apply(s, l)) && SentOnce(Apply(s, l))
  {
    SlotsStep(s, l);
    forall i | 0 <= i < |Apply(s, l).attempts| ensures SlotOk(Apply(s, l), i) && SentOk(Apply(s, l), i) {
      SentOkStep(s, l, i);
    }
    forall i, j, k | SentAt(Apply(s, l).attempts, i, k) && SentAt(Apply(s, l).attempts, j, k) ensures i == j {
      SentAtStep(s, l, i, j, k);
    }
  }

  lemma GoodStep(s: State, l: Label)
    requires Good(s) && Enabled(s, l) && !l.Retry?
    ensures Good(Apply(s, l))
  {
    ShapeStep(s, l);
    OrderedStep(s, l);
    BudgetsStep(s, l);
    TracksStep(s, l);
    CountedStep(s, l);
    SentOnceStep(s, l);
  }

  lemma {:induction false} GoodRun(s: State, tr: seq<Label>)
    requires Good(s) && Legal(s, tr) && Automatic(tr)
    ensures Good(Exec(s, tr))
    decreases |tr|
  {
    if tr != [] {
      GoodStep(s, tr[0]);
      GoodRun(Apply(s, tr[0]), tr[1..]);
    }
  }

  // ----------------------------------------------------------------- theorems

  lemma {:induction false} EarlierSucceeded(rows: Rows, c: Chain, m: int, n: int)
    requires Contiguous(rows) && Ordered(rows) && 1 <= m < n && Key(c, n) in rows
    ensures Key(c, m) in rows && rows[Key(c, m)].status == Succeeded
  {
    DownClosed(rows, c, m + 1, n);
    DownClosed(rows, c, m, n);
    assert OrderOk(rows, Key(c, m + 1));
  }

  ghost predicate Held(s: State, k: Key) {
    exists i :: Works(s.attempts, i, k)
  }

  /** With any mix of workers and users, Retry included: occurrences are numbered 1..n without a gap, two
      workers never hold one run, and a row is running exactly while a worker holds it. */
  lemma QueueSafety(now: int, tr: seq<Label>, c: Chain, m: int, k: Key, i: int, j: int)
    requires Legal(Empty(now), tr)
    ensures var s := Exec(Empty(now), tr);
            && (Key(c, m) in s.rows <==> 1 <= m <= Length(s.rows, c))
            && (Works(s.attempts, i, k) && Works(s.attempts, j, k) ==> i == j)
            && (k in s.rows && s.rows[k].status == Running <==> Held(s, k))
  {
    var s := Exec(Empty(now), tr);
    ShapeRun(Empty(now), tr);
    NumberedFromOne(s.rows, c, m);
    if Held(s, k) {
      var h :| Works(s.attempts, h, k);
      assert SlotOk(s, h);
    }
  }

  lemma GoodFromEmpty(now: int, tr: seq<Label>)
    requires Legal(Empty(now), tr) && Automatic(tr)
    ensures Good(Exec(Empty(now), tr))
  {
    GoodRun(Empty(now), tr);
  }

  /** Without Retry every occurrence before the last has succeeded, so only the last can be waiting or in
      flight, and no run is started more often than its max_attempts. */
  lemma OnlyTheLastIsOpen(now: int, tr: seq<Label>, c: Chain, m: int)
    requires Legal(Empty(now), tr) && Automatic(tr)
    requires 1 <= m <= Length(Exec(Empty(now), tr).rows, c)
    ensures var s := Exec(Empty(now), tr);
            && Key(c, m) in s.rows
            && (m < Length(s.rows, c) ==> s.rows[Key(c, m)].status == Succeeded)
            && Count(s.attempts, Key(c, m)) <= Max(1, s.rows[Key(c, m)].maxAttempts)
            && (s.rows[Key(c, m)].status == Pending && s.rows[Key(c, m)].attempt > 0 ==>
                  s.rows[Key(c, m)].attempt < s.rows[Key(c, m)].maxAttempts)
  {
    var s := Exec(Empty(now), tr);
    GoodFromEmpty(now, tr);
    var n := Length(s.rows, c);
    NumberedFromOne(s.rows, c, m);
    NumberedFromOne(s.rows, c, n);
    if m < n {
      EarlierSucceeded(s.rows, c, m, n);
    }
    assert CountOk(s, Key(c, m));
  }

  ghost predicate SentTo(attempts: seq<Attempt>, k: Key, notifier: string, i: int, d: int) {
    0 <= i < |attempts| && attempts[i].claimed.key == k &&
    0 <= d < |attempts[i].deliveries| && attempts[i].deliveries[d] == Delivery(notifier, Sent)
  }

  /** Over all automatic attempts of a run, only one attempt ever got anything delivered, and each notifier
      was sent to successfully at most once. */
  lemma DeliveredAtMostOnce(now: int, tr: seq<Label>, k: Key, a: string, b: string, i: int, d: int, j: int, e: int)
    requires Legal(Empty(now), tr) && Automatic(tr)
    requires SentTo(Exec(Empty(now), tr).attempts, k, a, i, d)
    requires SentTo(Exec(Empty(now), tr).attempts, k, b, j, e)
    ensures i == j
    ensures a == b ==> d == e
  {
    var s := Exec(Empty(now), tr);
    GoodFromEmpty(now, tr);
    assert SentAt(s.attempts, i, k) && SentAt(s.attempts, j, k);
    assert SlotOk(s, i) && SentOk(s, i);
  }

  // ------------------------------------------------- one execution for each claim

  ghost predicate Open(s: State, i: nat) {
    i < |s.attempts| ==> s.attempts[i].phase.Working?
  }

  ghost function Settles(tr: seq<Label>, i: nat): nat {
    if tr == [] then 0 else (if tr[0].Settle? && tr[0].slot == i then 1 else 0) + Settles(tr[1..], i)
  }

  lemma {:induction false} SettlesFrom(s: State, tr: seq<Label>, i: nat)
    requires Legal(s, tr)
    ensures Settles(tr, i) == (if Open(s, i) && !Open(Exec(s, tr), i) then 1 else 0)
    ensures !Open(s, i) ==> !Open(Exec(s, tr), i)
    ensures |s.attempts| <= |Exec(s, tr).attempts|
    decreases |tr|
  {
    if tr != [] {
      SettlesFrom(Apply(s, tr[0]), tr[1..], i);
    }
  }

  /** A claim is executed exactly once: not at all while its worker still has it open, once afterwards. */
  lemma ExecutedOncePerClaim(now: int, tr: seq<Label>, i: nat)
    requires Legal(Empty(now), tr) && i < |Exec(Empty(now), tr).attempts|
    ensures Settles(tr, i) == if Exec(Empty(now), tr).attempts[i].phase.Working? then 0 else 1
  {
    SettlesFrom(Empty(now), tr, i);
  }
}
