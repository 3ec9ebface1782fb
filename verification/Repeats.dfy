/** The bound on a chain's occurrences is reached: a chain whose runs succeed at once repeats as often as
    repeat_max and repeat_until allow, one interval apart. */
module Repeats {
  import opened Common
  import opened Runs
  import opened Queue
  import opened Chains
  import opened Stopping
  import Bounds

  /** Occurrence n is due one interval of n - 1 after the first. */
  function DueTime(f: int, seconds: int, n: nat): int {
    f + (n - 1) * (1000 * seconds)
  }

  predicate Repeating(st: Settings) {
    st.mode == Recurring && st.intervalSeconds.Some? && 0 < st.intervalSeconds.value
  }

  /** Occurrences 1 to n are there, the last has just succeeded and is about to be followed up. */
  ghost predicate AtOccurrence(s: State, c: Chain, st: Settings, f: int, n: nat)
    requires Repeating(st)
  {
    && Good(s) && 1 <= n && |s.attempts| == n && s.now == DueTime(f, st.intervalSeconds.value, n)
    && Key(c, n) in s.rows && Key(c, n + 1) !in s.rows
    && s.attempts[n - 1].phase.Following? && s.attempts[n - 1].phase.settings == st
    && s.attempts[n - 1].claimed.key == Key(c, n)
    && s.attempts[n - 1].phase.run == s.rows[Key(c, n)] && s.rows[Key(c, n)].acknowledgedAt.None?
    && Key(c, 1) in s.rows && s.rows[Key(c, 1)].finishedAt == Some(f)
  }

  function Succeeds(slot: nat, at: int, st: Settings): Label {
    Settle(slot, at, at, Ran(st, CallJob(None)))
  }

  /** A pending run is claimed when it is due and succeeds on the spot. */
  lemma SucceedAtOnce(s: State, k: Key, st: Settings)
    requires Good(s) && k in s.rows && s.rows[k].status == Pending && s.rows[k].acknowledgedAt.None?
    requires s.now <= s.rows[k].scheduledAt
    ensures Enabled(s, ClaimOnly(s, k))
    ensures var s1 := Apply(s, ClaimOnly(s, k));
            var l := Succeeds(|s.attempts|, s.rows[k].scheduledAt, st);
            && Enabled(s1, l)
            && var s2 := Apply(s1, l);
               && Good(s2) && s2.now == s.rows[k].scheduledAt && |s2.attempts| == |s.attempts| + 1
               && s2.rows.Keys == s.rows.Keys && s2.attempts[|s.attempts|].claimed == s.rows[k]
               && s2.rows[k].status == Succeeded && s2.rows[k].acknowledgedAt.None?
               && s2.rows[k].finishedAt == Some(s2.now)
               && s2.attempts[|s.attempts|].phase == Following(s2.rows[k], st)
               && forall j :: j in s.rows && j != k ==> s2.rows[j] == s.rows[j]
  {
    Bounds.ClaimAlone(s, k);
    var s1 := Apply(s, ClaimOnly(s, k));
    assert KeyOk(s.rows, k);
    assert SlotOk(s1, |s.attempts|);
    GoodStep(s1, Succeeds(|s.attempts|, s.rows[k].scheduledAt, st));
  }

  ghost predicate Reaches(s: State, tr: seq<Label>, c: Chain, st: Settings, f: int, n: nat)
    requires Repeating(st)
  {
    Legal(s, tr) && Automatic(tr) && Fixed(s, tr, c.eventId, st) && AtOccurrence(Exec(s, tr), c, st, f, n)
  }

  lemma {:induction false} JoinFixed(s: State, tr: seq<Label>, more: seq<Label>, eventId: string, st: Settings)
    requires Legal(s, tr) && Fixed(s, tr, eventId, st)
    requires Legal(Exec(s, tr), more) && Fixed(Exec(s, tr), more, eventId, st)
    ensures Legal(s, tr + more) && Exec(s, tr + more) == Exec(Exec(s, tr), more) && Fixed(s, tr + more, eventId, st)
    decreases |tr|
  {
    if tr == [] {
      assert tr + more == more;
    } else {
      assert (tr + more)[1..] == tr[1..] + more;
      JoinFixed(Apply(s, tr[0]), tr[1..], more, eventId, st);
    }
  }

  lemma OneFixed(s: State, l: Label, eventId: string, st: Settings)
    requires Enabled(s, l) && LabelFixed(s, l, eventId, st)
    ensures Legal(s, [l]) && Exec(s, [l]) == Apply(s, l) && Fixed(s, [l], eventId, st)
  {
    assert [l][1..] == [];
  }

  /** The state after claiming k as soon as it is due and letting it succeed. */
  ghost function AfterSuccess(s: State, k: Key, st: Settings): State
    requires Good(s) && k in s.rows && s.rows[k].status == Pending && s.rows[k].acknowledgedAt.None?
    requires s.now <= s.rows[k].scheduledAt
  {
    SucceedAtOnce(s, k, st);
    Apply(Apply(s, ClaimOnly(s, k)), Succeeds(|s.attempts|, s.rows[k].scheduledAt, st))
  }

  lemma ClaimAndSucceed(s: State, k: Key, st: Settings) returns (tr: seq<Label>)
    requires Good(s) && k in s.rows && s.rows[k].status == Pending && s.rows[k].acknowledgedAt.None?
    requires s.now <= s.rows[k].scheduledAt
    ensures Legal(s, tr) && Automatic(tr) && Fixed(s, tr, k.chain.eventId, st)
    ensures Exec(s, tr) == AfterSuccess(s, k, st)
  {
    SucceedAtOnce(s, k, st);
    var claim := ClaimOnly(s, k);
    var s1 := Apply(s, claim);
    var settle := Succeeds(|s.attempts|, s.rows[k].scheduledAt, st);
    OneFixed(s, claim, k.chain.eventId, st);
    OneFixed(s1, settle, k.chain.eventId, st);
    JoinFixed(s, [claim], [settle], k.chain.eventId, st);
    tr := [claim] + [settle];
  }

  /** Step a, then claim k, then let it succeed. */
  lemma ThreeSteps(s: State, a: Label, k: Key, st: Settings) returns (tr: seq<Label>)
    requires Enabled(s, a) && (a.Schedule? || a.Follow?) && Good(Apply(s, a))
    requires var s1 := Apply(s, a);
             && k in s1.rows && s1.rows[k].status == Pending && s1.rows[k].acknowledgedAt.None?
             && s1.now <= s1.rows[k].scheduledAt
    ensures Legal(s, tr) && Automatic(tr) && Fixed(s, tr, k.chain.eventId, st)
    ensures Exec(s, tr) == AfterSuccess(Apply(s, a), k, st)
  {
    var more := ClaimAndSucceed(Apply(s, a), k, st);
    OneFixed(s, a, k.chain.eventId, st);
    JoinFixed(s, [a], more, k.chain.eventId, st);
    tr := [a] + more;
  }

  lemma FirstOccurrence(c: Chain, st: Settings, f: int, maxAttempts: int) returns (tr: seq<Label>)
    requires Repeating(st)
    ensures Reaches(Empty(f), tr, c, st, f, 1)
  {
    var k := Key(c, 1);
    var a := Schedule(c, 0, maxAttempts, f);
    GoodFromEmpty(f, []);
    GoodStep(Empty(f), a);
    var s1 := Apply(Empty(f), a);
    assert s1.rows[k] == Fresh(k, f, maxAttempts);
    tr := ThreeSteps(Empty(f), a, k, st);
    SucceedAtOnce(s1, k, st);
  }

  /** Whether occurrence n + 1 may still be written at the time occurrence n succeeds. */
  predicate Allows(st: Settings, f: int, n: nat)
    requires Repeating(st)
  {
    && (st.repeatMax.Some? ==> n < st.repeatMax.value)
    && (st.repeatUntil.Some? ==> DueTime(f, st.intervalSeconds.value, n + 1) <= st.repeatUntil.value)
  }

  /** Following up writes occurrence n + 1, due an interval later, and nothing beyond it. */
  lemma FollowWrites(s: State, c: Chain, st: Settings, f: int, n: nat)
    requires Repeating(st) && AtOccurrence(s, c, st, f, n) && Allows(st, f, n)
    ensures Enabled(s, Follow(n - 1, s.now))
    ensures var t := Apply(s, Follow(n - 1, s.now));
            var k := Key(c, n + 1);
            && Good(t) && t.now == s.now && |t.attempts| == n && k in t.rows && Key(c, n + 2) !in t.rows
            && t.rows[k] == Fresh(k, DueTime(f, st.intervalSeconds.value, n + 1), s.rows[Key(c, n)].maxAttempts)
            && Key(c, 1) in t.rows && t.rows[Key(c, 1)] == s.rows[Key(c, 1)]
  {
    assert SlotOk(s, n - 1) && KeyOk(s.rows, Key(c, n)) && KeyOk(s.rows, Key(c, n + 2));
    NextDue(f, st.intervalSeconds.value, n);
    NextRunIff(s.attempts[n - 1].phase.run, st, s.now);
    GoodStep(s, Follow(n - 1, s.now));
  }

  lemma NextOccurrence(s: State, c: Chain, st: Settings, f: int, n: nat) returns (tr: seq<Label>)
    requires Repeating(st) && AtOccurrence(s, c, st, f, n) && Allows(st, f, n)
    ensures Reaches(s, tr, c, st, f, n + 1)
  {
    var a := Follow(n - 1, s.now);
    FollowWrites(s, c, st, f, n);
    NextDue(f, st.intervalSeconds.value, n);
    tr := ThreeSteps(s, a, Key(c, n + 1), st);
    SucceedAtOnce(Apply(s, a), Key(c, n + 1), st);
  }

  lemma NextDue(f: int, seconds: int, n: nat)
    ensures DueTime(f, seconds, n + 1) == DueTime(f, seconds, n) + 1000 * seconds
  {
  }

  lemma {:induction false} RepeatsUpTo(c: Chain, st: Settings, f: int, maxAttempts: int, n: nat)
    returns (tr: seq<Label>)
    requires Repeating(st) && 1 <= n && forall m :: 1 <= m < n ==> Allows(st, f, m)
    ensures Reaches(Empty(f), tr, c, st, f, n)
    decreases n
  {
    if n == 1 {
      tr := FirstOccurrence(c, st, f, maxAttempts);
    } else {
      var before := RepeatsUpTo(c, st, f, maxAttempts, n - 1);
      var more := NextOccurrence(Exec(Empty(f), before), c, st, f, n - 1);
      JoinFixed(Empty(f), before, more, c.eventId, st);
      tr := before + more;
    }
  }

  /** How many occurrences the settings leave room for after a first success at f: repeat_max of them, or
      one and as many intervals as fit before repeat_until, whichever is less, but always one. */
  predicate WithinReach(st: Settings, f: int, n: int)
    requires Repeating(st)
  {
    && (st.repeatMax.Some? ==> n <= Max(1, st.repeatMax.value))
    && (st.repeatUntil.Some? ==> n <= 1 + Max(0, (st.repeatUntil.value - f) / (1000 * st.intervalSeconds.value)))
  }

  lemma ReachAllows(st: Settings, f: int, n: int, m: nat)
    requires Repeating(st) && WithinReach(st, f, n) && 1 <= m < n
    ensures Allows(st, f, m)
  {
    var d := 1000 * st.intervalSeconds.value;
    if st.repeatUntil.Some? {
      var x := st.repeatUntil.value - f;
      var q := x / d;
      assert m <= q;
      TimesMonotone(m, q, d);
      assert x == q * d + x % d;
    }
  }

  lemma TimesMonotone(m: int, n: int, d: int)
    requires m <= n && 0 <= d
    ensures m * d <= n * d
  {
  }

  ghost predicate HasOccurrences(tr: seq<Label>, c: Chain, st: Settings, f: int, n: int) {
    && Legal(Empty(f), tr) && Automatic(tr) && Fixed(Empty(f), tr, c.eventId, st)
    && var s := Exec(Empty(f), tr);
       Length(s.rows, c) == n && Key(c, 1) in s.rows && s.rows[Key(c, 1)].finishedAt == Some(f)
  }

  /** For every repeating event and every moment f of the first success: a chain with n occurrences exists if
      and only if n is within reach. So the bound is attained, and without repeat_max and repeat_until there
      is no bound. */
  lemma OccurrencesIff(c: Chain, st: Settings, f: int, n: int)
    requires Repeating(st) && 1 <= n
    ensures (exists tr :: HasOccurrences(tr, c, st, f, n)) <==> WithinReach(st, f, n)
  {
    if WithinReach(st, f, n) {
      forall m: nat | 1 <= m < n ensures Allows(st, f, m) { ReachAllows(st, f, n, m); }
      var tr := RepeatsUpTo(c, st, f, 3, n);
      var s := Exec(Empty(f), tr);
      NumberedFromOne(s.rows, c, n);
      NumberedFromOne(s.rows, c, n + 1);
      assert HasOccurrences(tr, c, st, f, n);
    }
    forall tr | HasOccurrences(tr, c, st, f, n) ensures WithinReach(st, f, n) {
      Bounds.OccurrenceBound(f, tr, c, st);
    }
  }
}
