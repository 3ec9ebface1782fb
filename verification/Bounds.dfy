/** How far a repeat chain can go and how soon its attempts come, over whole traces without Retry. */
module Bounds {
  import opened Common
  import opened Runs
  import opened Queue
  import opened Chains
  import opened Stopping
  import Sync

  // ------------------------------------------------- occurrences of one chain

  function IntervalMs(st: Settings): int {
    1000 * Interval(st)
  }

  /** The earliest moment occurrence `occ` can fall due when the first one succeeded at f. */
  function Earliest(f: int, st: Settings, occ: int): int {
    f + (occ - 1) * IntervalMs(st)
  }

  lemma EarliestNext(f: int, st: Settings, occ: int)
    ensures Earliest(f, st, occ + 1) == Earliest(f, st, occ) + IntervalMs(st)
  {
  }

  function FirstSuccess(rows: Rows, c: Chain): int {
    if Key(c, 1) in rows && rows[Key(c, 1)].finishedAt.Some? then rows[Key(c, 1)].finishedAt.value else 0
  }

  ghost predicate PaceOk(s: State, c: Chain, st: Settings, k: Key) {
    k in s.rows && k.chain == c ==>
      var due, row := Earliest(FirstSuccess(s.rows, c), st, k.occ), s.rows[k];
      && (1 < k.occ ==>
            && st.mode == Recurring
            && (st.repeatMax.Some? ==> k.occ <= st.repeatMax.value)
            && 0 < IntervalMs(st)
            && (st.repeatUntil.Some? ==> due <= st.repeatUntil.value)
            && (row.status == Pending ==> due <= row.scheduledAt || due <= s.now)
            && (row.status == Running ==> due <= s.now))
      && (row.status == Succeeded ==> row.finishedAt.Some? && due <= row.finishedAt.value <= s.now)
  }

  ghost predicate Paced(s: State, c: Chain, st: Settings) {
    && Good(s) && SlotsFixed(s, c, st)
    && forall k :: PaceOk(s, c, st, k)
  }

  lemma FirstSuccessKept(s: State, l: Label, c: Chain)
    requires Good(s) && Enabled(s, l) && !l.Retry?
    requires Key(c, 1) in s.rows && s.rows[Key(c, 1)].status == Succeeded
    ensures FirstSuccess(Apply(s, l).rows, c) == FirstSuccess(s.rows, c)
  {
    if l.Settle? { assert SlotOk(s, l.slot); }
    if l.Follow? { assert SlotOk(s, l.slot) && KeyOk(s.rows, s.attempts[l.slot].claimed.key); }
  }

  lemma PaceOfFollow(s: State, l: Label, c: Chain, st: Settings, k: Key)
    requires Paced(s, c, st) && Enabled(s, l) && l.Follow? && k !in s.rows && k in Apply(s, l).rows && k.chain == c
    ensures PaceOk(Apply(s, l), c, st, k)
  {
    var a := s.attempts[l.slot];
    var p := a.claimed.key;
    assert SlotOk(s, l.slot) && TracksOk(s, l.slot) && KeyOk(s.rows, p) && PaceOk(s, c, st, p);
    if 1 < p.occ { EarlierSucceeded(s.rows, c, 1, p.occ); }
    FirstSuccessKept(s, l, c);
    EarliestNext(FirstSuccess(s.rows, c), st, p.occ);
  }

  lemma FirstKept(s: State, l: Label, c: Chain, k: Key)
    requires Good(s) && Enabled(s, l) && !l.Retry? && k in s.rows && k.chain == c
    ensures 1 < k.occ || s.rows[k].status == Succeeded ==> FirstSuccess(Apply(s, l).rows, c) == FirstSuccess(s.rows, c)
  {
    if 1 < k.occ {
      EarlierSucceeded(s.rows, c, 1, k.occ);
      FirstSuccessKept(s, l, c);
    } else if s.rows[k].status == Succeeded {
      assert KeyOk(s.rows, k);
      FirstSuccessKept(s, l, c);
    }
  }

  lemma PaceOfSettled(s: State, l: Label, c: Chain, st: Settings, k: Key)
    requires Paced(s, c, st) && Enabled(s, l) && l.Settle? && k in s.rows && k.chain == c
    ensures PaceOk(Apply(s, l), c, st, k)
  {
    assert KeyOk(s.rows, k) && PaceOk(s, c, st, k) && SlotOk(s, l.slot) && TracksOk(s, l.slot);
    FirstKept(s, l, c, k);
  }

  lemma PaceOfRow(s: State, l: Label, c: Chain, st: Settings, k: Key)
    requires Paced(s, c, st) && Enabled(s, l) && !l.Retry? && !l.Settle? && k in s.rows && k.chain == c
    ensures PaceOk(Apply(s, l), c, st, k)
  {
    assert KeyOk(s.rows, k) && PaceOk(s, c, st, k);
    FirstKept(s, l, c, k);
    if l.Follow? { assert SlotOk(s, l.slot) && KeyOk(s.rows, s.attempts[l.slot].claimed.key); }
    if l.Claim? && k in l.picked {
      var i :| 0 <= i < |l.picked| && l.picked[i] == k;
    }
  }

  lemma PacedStep(s: State, l: Label, c: Chain, st: Settings)
    requires Paced(s, c, st) && Enabled(s, l) && !l.Retry? && LabelFixed(s, l, c.eventId, st)
    ensures Paced(Apply(s, l), c, st)
  {
    GoodStep(s, l);
    if l.Settle? { assert SlotOk(s, l.slot); }
    forall k ensures PaceOk(Apply(s, l), c, st, k) {
      if k in Apply(s, l).rows && k.chain == c {
        if k in s.rows && l.Settle? {
          PaceOfSettled(s, l, c, st, k);
        } else if k in s.rows {
          PaceOfRow(s, l, c, st, k);
        } else if l.Follow? {
          PaceOfFollow(s, l, c, st, k);
        }
      }
    }
  }

  lemma {:induction false} PacedRun(s: State, tr: seq<Label>, c: Chain, st: Settings)
    requires Paced(s, c, st) && Legal(s, tr) && Automatic(tr) && Fixed(s, tr, c.eventId, st)
    ensures Paced(Exec(s, tr), c, st)
    decreases |tr|
  {
    if tr != [] {
      PacedStep(s, tr[0], c, st);
      PacedRun(Apply(s, tr[0]), tr[1..], c, st);
    }
  }

  lemma AtLeastOnce(n: int, d: int)
    ensures 1 <= n && 0 <= d ==> d <= n * d
  {
  }

  lemma QuotientBound(n: int, d: int, x: int)
    requires 0 < d && n * d <= x
    ensures n <= x / d
  {
    var q := x / d;
    assert x == q * d + x % d;
    assert (n - q) * d == n * d - q * d;
    AtLeastOnce(n - q, d);
  }

  /** How many occurrences fit between the first success and repeat_until. */
  function MostBy(rows: Rows, c: Chain, st: Settings): int
    requires st.repeatUntil.Some? && 0 < IntervalMs(st)
  {
    1 + Max(0, (st.repeatUntil.value - FirstSuccess(rows, c)) / IntervalMs(st))
  }

  /** With fixed settings a chain has one occurrence unless it is recurring, never more than repeat_max, and
      never more than fit between its first success f and repeat_until: 1 + max(0, floor((until - f) / I)). */
  lemma OccurrenceBound(now: int, tr: seq<Label>, c: Chain, st: Settings)
    requires Legal(Empty(now), tr) && Automatic(tr) && Fixed(Empty(now), tr, c.eventId, st)
    ensures var s := Exec(Empty(now), tr);
            var n := Length(s.rows, c);
            && (1 < n ==> st.mode == Recurring && 0 < IntervalMs(st))
            && (st.repeatMax.Some? ==> n <= Max(1, st.repeatMax.value))
            && (st.repeatUntil.Some? && 0 < IntervalMs(st) ==>
                  n <= MostBy(s.rows, c, st))
  {
    PacedRun(Empty(now), tr, c, st);
    var s := Exec(Empty(now), tr);
    var n := Length(s.rows, c);
    NumberedFromOne(s.rows, c, n);
    if 1 < n {
      assert PaceOk(s, c, st, Key(c, n));
      if st.repeatUntil.Some? {
        QuotientBound(n - 1, IntervalMs(st), st.repeatUntil.value - FirstSuccess(s.rows, c));
      }
    }
  }

  // --------------------------------------------------- executions of one chain

  /** How many claims belong to chain c at all. */
  ghost function ChainClaims(attempts: seq<Attempt>, c: Chain): nat {
    if attempts == [] then 0
    else (if attempts[|attempts| - 1].claimed.key.chain == c then 1 else 0) + ChainClaims(attempts[..|attempts| - 1], c)
  }

  ghost function SumCounts(attempts: seq<Attempt>, c: Chain, n: nat): nat {
    if n == 0 then 0 else Count(attempts, Key(c, n)) + SumCounts(attempts, c, n - 1)
  }

  lemma {:induction false} SumCountsSnoc(attempts: seq<Attempt>, c: Chain, n: nat)
    requires attempts != []
    ensures var k := attempts[|attempts| - 1].claimed.key;
            SumCounts(attempts, c, n) == SumCounts(attempts[..|attempts| - 1], c, n)
                                         + if k.chain == c && 1 <= k.occ <= n then 1 else 0
  {
    if n > 0 {
      SumCountsSnoc(attempts, c, n - 1);
    }
  }

  lemma {:induction false} SumCountsEmpty(c: Chain, n: nat)
    ensures SumCounts([], c, n) == 0
  {
    if n > 0 {
      SumCountsEmpty(c, n - 1);
    }
  }

  lemma {:induction false} ClaimsAreCounts(attempts: seq<Attempt>, c: Chain, n: nat)
    requires forall i :: 0 <= i < |attempts| && attempts[i].claimed.key.chain == c ==>
               1 <= attempts[i].claimed.key.occ <= n
    ensures ChainClaims(attempts, c) == SumCounts(attempts, c, n)
    decreases |attempts|
  {
    if attempts == [] {
      SumCountsEmpty(c, n);
    } else {
      ClaimsAreCounts(attempts[..|attempts| - 1], c, n);
      SumCountsSnoc(attempts, c, n);
    }
  }

  function Budget(rows: Rows, c: Chain): int {
    if Key(c, 1) in rows then Max(1, rows[Key(c, 1)].maxAttempts) else 0
  }

  lemma {:induction false} SumCountsBound(s: State, c: Chain, n: nat)
    requires Good(s) && (1 <= n ==> Key(c, n) in s.rows)
    ensures 1 <= n ==> Key(c, 1) in s.rows && s.rows[Key(c, n)].maxAttempts == s.rows[Key(c, 1)].maxAttempts
    ensures SumCounts(s.attempts, c, n) <= n * Budget(s.rows, c)
    decreases n
  {
    if n > 0 {
      assert CountOk(s, Key(c, n)) && RunOk(s.rows[Key(c, n)]);
      if n > 1 {
        assert KeyOk(s.rows, Key(c, n)) && OrderOk(s.rows, Key(c, n));
      }
      SumCountsBound(s, c, n - 1);
      assert n * Budget(s.rows, c) == (n - 1) * Budget(s.rows, c) + Budget(s.rows, c);
    }
  }

  lemma ChainClaimsAreCounts(s: State, c: Chain)
    requires Shape(s)
    ensures ChainClaims(s.attempts, c) == SumCounts(s.attempts, c, Length(s.rows, c))
  {
    forall i | 0 <= i < |s.attempts| && s.attempts[i].claimed.key.chain == c
      ensures 1 <= s.attempts[i].claimed.key.occ <= Length(s.rows, c)
    {
      assert SlotOk(s, i);
      NumberedFromOne(s.rows, c, s.attempts[i].claimed.key.occ);
    }
    ClaimsAreCounts(s.attempts, c, Length(s.rows, c));
  }

  lemma ProductMonotone(m: int, n: int, d: int)
    requires m <= n && 0 <= d
    ensures m * d <= n * d
  {
  }

  lemma ChainClaimsBound(s: State, c: Chain, n: int)
    requires Good(s) && Length(s.rows, c) <= n
    ensures ChainClaims(s.attempts, c) <= n * Budget(s.rows, c)
  {
    var len := Length(s.rows, c);
    ChainClaimsAreCounts(s, c);
    NumberedFromOne(s.rows, c, len);
    SumCountsBound(s, c, len);
    ProductMonotone(len, n, Budget(s.rows, c));
  }

  /** Every claim is one execution, so a chain is executed at most n * max_attempts times. With repeat_max or
      repeat_until set that is a bound however long the system goes on: the chain settles. */
  lemma ExecutionBound(now: int, tr: seq<Label>, c: Chain, st: Settings)
    requires Legal(Empty(now), tr) && Automatic(tr) && Fixed(Empty(now), tr, c.eventId, st)
    ensures var s := Exec(Empty(now), tr);
            && ChainClaims(s.attempts, c) <= Length(s.rows, c) * Budget(s.rows, c)
            && (st.repeatMax.Some? ==> ChainClaims(s.attempts, c) <= Max(1, st.repeatMax.value) * Budget(s.rows, c))
            && (st.repeatUntil.Some? && 0 < IntervalMs(st) ==>
                  ChainClaims(s.attempts, c) <= MostBy(s.rows, c, st) * Budget(s.rows, c))
  {
    GoodFromEmpty(now, tr);
    OccurrenceBound(now, tr, c, st);
    var s := Exec(Empty(now), tr);
    ChainClaimsBound(s, c, Length(s.rows, c));
    if st.repeatMax.Some? {
      ChainClaimsBound(s, c, Max(1, st.repeatMax.value));
    }
    if st.repeatUntil.Some? && 0 < IntervalMs(st) {
      ChainClaimsBound(s, c, MostBy(s.rows, c, st));
    }
  }

  // -------------------------------------------------------- every chain settles

  predicate IsWork(s: State, l: Label, c: Chain) {
    (l.Settle? || l.Follow?) && l.slot < |s.attempts| && s.attempts[l.slot].claimed.key.chain == c
  }

  /** The settle and follow steps of chain c in a trace. */
  ghost function WorkSteps(s: State, tr: seq<Label>, c: Chain): nat
    requires Legal(s, tr)
    decreases |tr|
  {
    if tr == [] then 0 else (if IsWork(s, tr[0], c) then 1 else 0) + WorkSteps(Apply(s, tr[0]), tr[1..], c)
  }

  function StepsLeft(a: Attempt, c: Chain): nat {
    if a.claimed.key.chain != c then 0
    else match a.phase
         case Working => 2
         case Following(_, _) => 1
         case Done => 0
  }

  /** The measure: how many settle and follow steps the claims taken so far still allow. */
  ghost function Owed(attempts: seq<Attempt>, c: Chain): nat {
    if attempts == [] then 0
    else StepsLeft(attempts[|attempts| - 1], c) + Owed(attempts[..|attempts| - 1], c)
  }

  lemma {:induction false} OwedUpdate(attempts: seq<Attempt>, i: nat, a: Attempt, c: Chain)
    requires i < |attempts| && a.claimed == attempts[i].claimed
    ensures Owed(attempts[i := a], c) == Owed(attempts, c) - StepsLeft(attempts[i], c) + StepsLeft(a, c)
    ensures ChainClaims(attempts[i := a], c) == ChainClaims(attempts, c)
    decreases |attempts|
  {
    var n := |attempts| - 1;
    if i < n {
      OwedUpdate(attempts[..n], i, a, c);
      assert attempts[i := a][..n] == attempts[..n][i := a];
    } else {
      assert attempts[i := a][..n] == attempts[..n];
    }
  }

  lemma {:induction false} OwedMore(attempts: seq<Attempt>, more: seq<Attempt>, c: Chain)
    requires forall i :: 0 <= i < |more| ==> more[i].phase.Working?
    ensures Owed(attempts + more, c) - Owed(attempts, c)
            == 2 * (ChainClaims(attempts + more, c) - ChainClaims(attempts, c))
    decreases |more|
  {
    if more == [] {
      assert attempts + more == attempts;
    } else {
      var n := |more| - 1;
      OwedMore(attempts, more[..n], c);
      assert (attempts + more)[..|attempts + more| - 1] == attempts + more[..n];
    }
  }

  /** A claim raises the measure by two, every settle or follow of the chain lowers it, nothing else moves it. */
  lemma OwedStep(s: State, l: Label, c: Chain)
    requires Enabled(s, l)
    ensures Owed(Apply(s, l).attempts, c) + (if IsWork(s, l, c) then 1 else 0)
            <= Owed(s.attempts, c) + 2 * (ChainClaims(Apply(s, l).attempts, c) - ChainClaims(s.attempts, c))
  {
    var t := Apply(s, l);
    match l
    case Claim(picked, _, _, at) => OwedMore(s.attempts, ClaimAttempts(s.rows, picked, at), c);
    case Retry(key, at) => OwedMore(s.attempts, [t.attempts[|s.attempts|]], c);
    case Settle(slot, _, _, _) => OwedUpdate(s.attempts, slot, t.attempts[slot], c);
    case Follow(slot, _) => OwedUpdate(s.attempts, slot, t.attempts[slot], c);
    case _ =>
  }

  lemma {:induction false} WorkIsOwed(s: State, tr: seq<Label>, c: Chain)
    requires Legal(s, tr)
    ensures WorkSteps(s, tr, c) + Owed(Exec(s, tr).attempts, c)
            <= Owed(s.attempts, c) + 2 * (ChainClaims(Exec(s, tr).attempts, c) - ChainClaims(s.attempts, c))
    decreases |tr|
  {
    if tr != [] {
      OwedStep(s, tr[0], c);
      WorkIsOwed(Apply(s, tr[0]), tr[1..], c);
    }
  }

  /** A chain settles: in a run of any length its claims, settles and follow-ups together are at most three
      times repeat_max, or what fits before repeat_until, times max_attempts. */
  lemma ChainSettles(now: int, tr: seq<Label>, c: Chain, st: Settings)
    requires Legal(Empty(now), tr) && Automatic(tr) && Fixed(Empty(now), tr, c.eventId, st)
    ensures var s := Exec(Empty(now), tr);
            var work := ChainClaims(s.attempts, c) + WorkSteps(Empty(now), tr, c);
            && (st.repeatMax.Some? ==> work <= 3 * (Max(1, st.repeatMax.value) * Budget(s.rows, c)))
            && (st.repeatUntil.Some? && 0 < IntervalMs(st) ==> work <= 3 * (MostBy(s.rows, c, st) * Budget(s.rows, c)))
            && (st.mode != Recurring || IntervalMs(st) <= 0 ==> work <= 3 * Budget(s.rows, c))
  {
    ExecutionBound(now, tr, c, st);
    OccurrenceBound(now, tr, c, st);
    WorkIsOwed(Empty(now), tr, c);
    GoodFromEmpty(now, tr);
    if st.mode != Recurring || IntervalMs(st) <= 0 {
      ChainClaimsBound(Exec(Empty(now), tr), c, 1);
    }
  }

  // --------------------------------------------------------- spacing of retries

  /** The backoffs before attempt a + 1 add up to this many milliseconds. */
  function Gap(a: nat): int {
    30_000 * (Pow2(a + 1) - 2)
  }

  lemma GapNext(a: nat)
    ensures Gap(0) == 0 && Gap(a + 1) == Gap(a) + 30_000 * Pow2(a + 1)
  {
    assert Pow2(1) == 2;
  }

  ghost predicate IsFirst(s: State, i: int, k: Key) {
    0 <= i < |s.attempts| && s.attempts[i].claimed.key == k && s.attempts[i].claimed.attempt == 0
  }

  ghost predicate RowSpaced(s: State, i: int, k: Key) {
    IsFirst(s, i, k) && k in s.rows && s.rows[k].status == Pending && s.rows[k].attempt <= 28 ==>
      s.attempts[i].claimed.scheduledAt + Gap(s.rows[k].attempt) <= s.rows[k].scheduledAt
  }

  ghost predicate PairSpaced(s: State, i: int, j: int, k: Key) {
    IsFirst(s, i, k) && 0 <= j < |s.attempts| && s.attempts[j].claimed.key == k
    && s.attempts[j].claimed.attempt <= 28 ==>
      s.attempts[i].claimed.scheduledAt + Gap(s.attempts[j].claimed.attempt) <= s.attempts[j].at
  }

  ghost predicate Spaced(s: State) {
    && Good(s)
    && (forall i, k :: RowSpaced(s, i, k))
    && (forall i, j, k :: PairSpaced(s, i, j, k))
  }

  lemma {:induction false} CountedIfPresent(attempts: seq<Attempt>, i: int, k: Key)
    requires 0 <= i < |attempts| && attempts[i].claimed.key == k
    ensures 1 <= Count(attempts, k)
    decreases |attempts|
  {
    if i < |attempts| - 1 {
      CountedIfPresent(attempts[..|attempts| - 1], i, k);
    }
  }

  lemma RowSpacedSettle(s: State, l: Label, i: int, k: Key)
    requires Spaced(s) && Enabled(s, l) && l.Settle? && s.attempts[l.slot].claimed.key == k && IsFirst(s, i, k)
    ensures RowSpaced(Apply(s, l), i, k)
  {
    var a := s.attempts[l.slot].claimed;
    assert SlotOk(s, l.slot) && TracksOk(s, l.slot) && PairSpaced(s, i, l.slot, k);
    if a.attempt + 1 < a.maxAttempts && a.attempt + 1 <= 28 {
      BackoffExactIff(a.attempt + 1);
      GapNext(a.attempt);
    }
  }

  lemma RowSpacedKept(s: State, l: Label, i: int, k: Key)
    requires Spaced(s) && Enabled(s, l) && !l.Retry? && IsFirst(s, i, k)
    requires !(l.Settle? && s.attempts[l.slot].claimed.key == k)
    ensures RowSpaced(Apply(s, l), i, k)
  {
    assert RowSpaced(s, i, k) && KeyOk(s.rows, k) && SlotOk(s, i);
    if l.Settle? || l.Follow? { assert SlotOk(s, l.slot); }
  }

  lemma RowSpacedStep(s: State, l: Label, i: int, k: Key)
    requires Spaced(s) && Enabled(s, l) && !l.Retry?
    ensures RowSpaced(Apply(s, l), i, k)
  {
    if IsFirst(Apply(s, l), i, k) {
      if l.Claim? && i >= |s.attempts| {
        assert KeyOk(s.rows, l.picked[i - |s.attempts|]) && l.picked[i - |s.attempts|] == k;
      } else if l.Settle? && s.attempts[l.slot].claimed.key == k {
        RowSpacedSettle(s, l, i, k);
      } else {
        RowSpacedKept(s, l, i, k);
      }
    }
  }

  /** A freshly claimed run carries its row: it was due, and it is a first attempt only if none came before. */
  lemma NewClaim(s: State, l: Label, i: int)
    requires Contiguous(s.rows) && Counted(s) && Enabled(s, l) && l.Claim?
    requires |s.attempts| <= i < |Apply(s, l).attempts|
    ensures var a := Apply(s, l).attempts[i];
            && a.claimed.key in s.rows && a.claimed == s.rows[a.claimed.key] && a.at == l.at
            && a.claimed.status == Pending && a.claimed.scheduledAt <= a.at
            && (a.claimed.attempt == 0 ==> Count(s.attempts, a.claimed.key) == 0)
  {
    var k := l.picked[i - |s.attempts|];
    assert KeyOk(s.rows, k) && CountOk(s, k);
  }

  lemma PairSpacedClaim(s: State, l: Label, i: int, j: int, k: Key)
    requires Contiguous(s.rows) && Counted(s) && RowSpaced(s, i, k) && Enabled(s, l) && l.Claim?
    requires i >= |s.attempts| || j >= |s.attempts|
    ensures PairSpaced(Apply(s, l), i, j, k)
  {
    var s' := Apply(s, l);
    var n := |s.attempts|;
    GapNext(0);
    if IsFirst(s', i, k) && 0 <= j < |s'.attempts| && s'.attempts[j].claimed.key == k {
      if n <= i { NewClaim(s, l, i); }
      if n <= j { NewClaim(s, l, j); }
      if j < n { CountedIfPresent(s.attempts, j, k); }
    }
  }

  lemma PairSpacedStep(s: State, l: Label, i: int, j: int, k: Key)
    requires Spaced(s) && Enabled(s, l) && !l.Retry?
    ensures PairSpaced(Apply(s, l), i, j, k)
  {
    if l.Claim? && (i >= |s.attempts| || j >= |s.attempts|) {
      assert RowSpaced(s, i, k);
      PairSpacedClaim(s, l, i, j, k);
    } else {
      assert PairSpaced(s, i, j, k);
    }
  }

  lemma SpacedStep(s: State, l: Label)
    requires Spaced(s) && Enabled(s, l) && !l.Retry?
    ensures Spaced(Apply(s, l))
  {
    GoodStep(s, l);
    forall i, k ensures RowSpaced(Apply(s, l), i, k) { RowSpacedStep(s, l, i, k); }
    forall i, j, k ensures PairSpaced(Apply(s, l), i, j, k) { PairSpacedStep(s, l, i, j, k); }
  }

  lemma {:induction false} SpacedRun(s: State, tr: seq<Label>)
    requires Spaced(s) && Legal(s, tr) && Automatic(tr)
    ensures Spaced(Exec(s, tr))
    decreases |tr|
  {
    if tr != [] {
      SpacedStep(s, tr[0]);
      SpacedRun(Apply(s, tr[0]), tr[1..]);
    }
  }

  /** Attempt number a (counted from 1) of a run starts no earlier than 30 * (2^a - 2) seconds after the run
      was first due, for every a the backoff arithmetic reaches inside int64, whatever max_attempts is. */
  lemma AttemptsAreSpaced(now: int, tr: seq<Label>, i: int, j: int, a: nat)
    requires Legal(Empty(now), tr) && Automatic(tr) && 1 <= a <= 29
    requires var s := Exec(Empty(now), tr);
             && 0 <= i < |s.attempts| && 0 <= j < |s.attempts|
             && s.attempts[i].claimed.key == s.attempts[j].claimed.key
             && s.attempts[i].claimed.attempt == 0 && s.attempts[j].claimed.attempt == a - 1
    ensures var s := Exec(Empty(now), tr);
            s.attempts[j].at >= s.attempts[i].claimed.scheduledAt + 30_000 * (Pow2(a) - 2)
  {
    SpacedRun(Empty(now), tr);
    var s := Exec(Empty(now), tr);
    assert PairSpaced(s, i, j, s.attempts[i].claimed.key);
  }

  // ------------------------------------------------ and where the spacing ends

  /** When attempt k + 1 starts if everything fails at once and every retry is claimed when it is due. */
  function EarliestStart(k: nat): int {
    if k == 0 then 0 else EarliestStart(k - 1) + Max(0, BackoffMs(k))
  }

  lemma {:induction false} EarliestIsEarly(k: nat)
    ensures EarliestStart(k) <= Gap(k)
    ensures 29 <= k ==> EarliestStart(k) < Gap(k)
  {
    GapNext(0);
    if k > 0 {
      EarliestIsEarly(k - 1);
      GapNext(k - 1);
      if k <= 28 {
        BackoffExactIff(k);
      } else {
        Pow2At28();
        Pow2Monotone(29, k);
      }
    }
  }

  /** The state of a run on its attempt number k + 1, every earlier one failed. */
  ghost predicate OnAttempt(s: State, key: Key, k: nat) {
    && Good(s) && s.now == EarliestStart(k) && |s.attempts| == k + 1
    && s.attempts[0].claimed == Fresh(key, 0, s.attempts[k].claimed.maxAttempts)
    && s.attempts[k].phase.Working? && s.attempts[k].at == s.now
    && s.attempts[k].claimed.key == key && s.attempts[k].claimed.attempt == k
  }

  /** Every first run of the trace is scheduled with this max_attempts. */
  ghost predicate ScheduledWith(tr: seq<Label>, maxAttempts: int) {
    forall i :: 0 <= i < |tr| && tr[i].Schedule? ==> tr[i].maxAttempts == maxAttempts
  }

  /** Claiming one pending run as soon as it is due. */
  lemma ClaimAlone(s: State, key: Key)
    requires Good(s) && key in s.rows && s.rows[key].status == Pending
    ensures Enabled(s, ClaimOnly(s, key))
    ensures var t := Apply(s, ClaimOnly(s, key));
            Good(t) && t.now == Max(s.now, s.rows[key].scheduledAt)
            && t.attempts == s.attempts + [Attempt(s.rows[key], t.now, Working, [], None)]
  {
    assert KeyOk(s.rows, key);
    ClaimBreaksSilence(s, s, key, 0);
    GoodStep(s, ClaimOnly(s, key));
  }

  /** The handler fails on attempt number k + 1 and the run is put back. */
  lemma Fail(s: State, key: Key, k: nat) returns (l: Label)
    requires OnAttempt(s, key, k) && k + 1 < s.attempts[k].claimed.maxAttempts
    ensures Enabled(s, l) && l.Settle? && Good(Apply(s, l))
    ensures var t := Apply(s, l);
            && t.now == s.now && |t.attempts| == k + 1 && t.attempts[0].claimed == s.attempts[0].claimed
            && key in t.rows && t.rows[key].status == Pending && t.rows[key].key == key
            && t.rows[key].scheduledAt == s.now + BackoffMs(k + 1) && t.rows[key].attempt == k + 1
            && t.rows[key].maxAttempts == s.attempts[k].claimed.maxAttempts
  {
    assert SlotOk(s, k) && TracksOk(s, k);
    l := Settle(k, s.now, s.now, Ran(SampleSettings, CallJob(Some("down"))));
    GoodStep(s, l);
  }

  lemma FailOnce(s: State, key: Key, k: nat) returns (tr: seq<Label>)
    requires OnAttempt(s, key, k) && k + 1 < s.attempts[k].claimed.maxAttempts
    ensures Legal(s, tr) && Automatic(tr) && OnAttempt(Exec(s, tr), key, k + 1)
    ensures ScheduledWith(tr, s.attempts[k].claimed.maxAttempts)
    ensures Exec(s, tr).attempts[k + 1].claimed.maxAttempts == s.attempts[k].claimed.maxAttempts
  {
    var l1 := Fail(s, key, k);
    var s1 := Apply(s, l1);
    ClaimAlone(s1, key);
    TwoSteps(s, l1, ClaimOnly(s1, key));
    tr := [l1, ClaimOnly(s1, key)];
  }

  lemma {:induction false} FailsFor(c: Chain, k: nat, maxAttempts: int) returns (tr: seq<Label>)
    requires k < maxAttempts
    ensures Legal(Empty(0), tr) && Automatic(tr) && OnAttempt(Exec(Empty(0), tr), Key(c, 1), k)
    ensures Exec(Empty(0), tr).attempts[k].claimed.maxAttempts == maxAttempts && ScheduledWith(tr, maxAttempts)
    decreases k
  {
    if k == 0 {
      var l1 := Schedule(c, 0, maxAttempts, 0);
      GoodFromEmpty(0, []);
      GoodStep(Empty(0), l1);
      var s1 := Apply(Empty(0), l1);
      assert s1.rows[Key(c, 1)] == Fresh(Key(c, 1), 0, maxAttempts);
      ClaimAlone(s1, Key(c, 1));
      TwoSteps(Empty(0), l1, ClaimOnly(s1, Key(c, 1)));
      tr := [l1, ClaimOnly(s1, Key(c, 1))];
    } else {
      var before := FailsFor(c, k - 1, maxAttempts);
      var more := FailOnce(Exec(Empty(0), before), Key(c, 1), k - 1);
      JoinTraces(Empty(0), before, more);
      tr := before + more;
    }
  }

  /** In this run attempt number a of some run starts too early. */
  ghost predicate StartsEarly(now: int, tr: seq<Label>, i: int, j: int, a: nat) {
    && Legal(Empty(now), tr) && Automatic(tr)
    && var s := Exec(Empty(now), tr);
       && 0 <= i < |s.attempts| && 0 <= j < |s.attempts|
       && s.attempts[i].claimed.key == s.attempts[j].claimed.key
       && s.attempts[i].claimed.attempt == 0 && s.attempts[j].claimed.attempt == a - 1
       && s.attempts[j].at < s.attempts[i].claimed.scheduledAt + 30_000 * (Pow2(a) - 2)
  }

  /** The spacing holds in every run for attempts 1 to 29 and for no other: from the 29th failure on the
      backoff has overflowed, and the next attempt can start too early. */
  lemma SpacingHoldsIff(a: nat)
    requires 1 <= a
    ensures (forall now, tr, i, j :: !StartsEarly(now, tr, i, j, a)) <==> a <= 29
  {
    if a <= 29 {
      forall now, tr, i, j ensures !StartsEarly(now, tr, i, j, a) {
        if StartsEarly(now, tr, i, j, a) {
          AttemptsAreSpaced(now, tr, i, j, a);
        }
      }
    } else {
      var tr := FailsFor(SampleChain, a - 1, a);
      EarliestIsEarly(a - 1);
      assert StartsEarly(0, tr, 0, a - 1, a);
    }
  }

  // -------------------------------------- what max_attempts makes of the spacing

  ghost predicate AllWith(rows: Rows, maxAttempts: int) {
    forall k :: k in rows ==> rows[k].maxAttempts == maxAttempts
  }

  lemma AllWithStep(s: State, l: Label, maxAttempts: int)
    requires Good(s) && Enabled(s, l) && AllWith(s.rows, maxAttempts)
    requires l.Schedule? ==> l.maxAttempts == maxAttempts
    ensures AllWith(Apply(s, l).rows, maxAttempts)
  {
    if l.Settle? || l.Follow? {
      assert SlotOk(s, l.slot) && TracksOk(s, l.slot);
    }
  }

  lemma {:induction false} AllWithRun(s: State, tr: seq<Label>, maxAttempts: int)
    requires Good(s) && AllWith(s.rows, maxAttempts)
    requires Legal(s, tr) && Automatic(tr) && ScheduledWith(tr, maxAttempts)
    ensures AllWith(Exec(s, tr).rows, maxAttempts)
    decreases |tr|
  {
    if tr != [] {
      GoodStep(s, tr[0]);
      AllWithStep(s, tr[0], maxAttempts);
      AllWithRun(Apply(s, tr[0]), tr[1..], maxAttempts);
    }
  }

  lemma SpacedUpTo29(now: int, tr: seq<Label>, maxAttempts: int, i: int, j: int, a: nat)
    requires 1 <= a && ScheduledWith(tr, maxAttempts) && maxAttempts <= 29
    ensures !StartsEarly(now, tr, i, j, a)
  {
    if StartsEarly(now, tr, i, j, a) {
      GoodFromEmpty(now, []);
      AllWithRun(Empty(now), tr, maxAttempts);
      GoodFromEmpty(now, tr);
      assert SlotOk(Exec(Empty(now), tr), j) && TracksOk(Exec(Empty(now), tr), j);
      AttemptsAreSpaced(now, tr, i, j, a);
    }
  }

  ghost predicate BreaksSpacing(now: int, tr: seq<Label>, maxAttempts: int, i: int, j: int, a: int) {
    1 <= a && ScheduledWith(tr, maxAttempts) && StartsEarly(now, tr, i, j, a)
  }

  /** The exact limit of the column: all attempts of all runs scheduled with some max_attempts are spaced if
      and only if it is at most 29. */
  lemma ColumnLimitIff(maxAttempts: int)
    ensures (forall now, tr, i, j, a :: !BreaksSpacing(now, tr, maxAttempts, i, j, a)) <==> maxAttempts <= 29
  {
    if maxAttempts <= 29 {
      forall now, tr, i, j, a ensures !BreaksSpacing(now, tr, maxAttempts, i, j, a) {
        if BreaksSpacing(now, tr, maxAttempts, i, j, a) {
          SpacedUpTo29(now, tr, maxAttempts, i, j, a);
        }
      }
    } else {
      var tr := FailsFor(SampleChain, 29, maxAttempts);
      EarliestIsEarly(29);
      assert BreaksSpacing(0, tr, maxAttempts, 0, 29, 30);
    }
  }

  /** The runs the pipeline schedules carry three, so none of their attempts ever starts early. */
  lemma CodeRunsAreSpaced(now: int, tr: seq<Label>, i: int, j: int, a: nat)
    requires 1 <= a && ScheduledWith(tr, Sync.MAX_ATTEMPTS)
    ensures !StartsEarly(now, tr, i, j, a)
  {
    SpacedUpTo29(now, tr, Sync.MAX_ATTEMPTS, i, j, a);
  }
}
