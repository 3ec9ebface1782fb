/** event_runs rows and the pure part of what the worker and the user do to one of them. */
module Runs {
  import opened Common
  import opened Notify

  /** The repeat chain a run belongs to: one match expanded by one event. */
  datatype Chain = Chain(matchId: string, eventId: string)

  /** The unique (match, event, occurrence) index, used here as the row's identity. */
  datatype Key = Key(chain: Chain, occ: int)

  datatype Status = Pending | Running | Succeeded | Failed | Cancelled

  datatype Run = Run(
    key: Key,
    status: Status,
    scheduledAt: int,
    startedAt: Option<int>,
    finishedAt: Option<int>,
    attempt: nat,
    maxAttempts: int,
    nextRetryAt: Option<int>,
    acknowledgedAt: Option<int>,
    error: Option<string>)

  type Rows = map<Key, Run>

  datatype RunMode = Immediate | Delayed | Recurring

  /** The columns of watcher_events the dispatcher reads. */
  datatype Settings = Settings(
    mode: RunMode,
    intervalSeconds: Option<int>,
    repeatMax: Option<int>,
    repeatUntil: Option<int>,
    stopOnAck: bool)

  /** What the registered handler is about to do. */
  datatype Job = NotifyJob(targets: seq<Target>) | CallJob(error: Option<string>)

  /** How the lookups and the handler of one execution turn out. */
  datatype Outcome = Gone(reason: string) | Ran(settings: Settings, job: Job)

  function JobOutput(job: Job): Output {
    match job
    case NotifyJob(targets) => NotifyOutput(targets)
    case CallJob(error) => Output([], error)
  }

  function OutcomeDeliveries(outcome: Outcome): seq<Delivery> {
    if outcome.Ran? then JobOutput(outcome.job).deliveries else []
  }

  // ------------------------------------------------------------- retry backoff

  const TWO_63 := 0x8000_0000_0000_0000
  const TWO_64 := 0x1_0000_0000_0000_0000
  const THIRTY_SECONDS_NS := 30_000_000_000
  const NS_PER_MS := 1_000_000

  function Pow2(n: nat): (p: nat)
    ensures p >= 1
  {
    if n == 0 then 1 else 2 * Pow2(n - 1)
  }

  lemma {:induction false} Pow2Monotone(m: nat, n: nat)
    requires m <= n
    ensures Pow2(m) <= Pow2(n)
  {
    if m < n {
      Pow2Monotone(m, n - 1);
    }
  }

  /** Two's complement int64: the only value in range that agrees with x modulo 2^64. */
  function WrapInt64(x: int): (r: int)
    ensures -TWO_63 <= r < TWO_63
    ensures (r - x) % TWO_64 == 0
    ensures r == x <==> -TWO_63 <= x < TWO_63
  {
    (x + TWO_63) % TWO_64 - TWO_63
  }

  /** The Go expression that shifts a Duration of 1 and multiplies it by 30 seconds, in nanoseconds. */
  function BackoffNanos(attempt: nat): int {
    WrapInt64(WrapInt64(Pow2(attempt)) * THIRTY_SECONDS_NS)
  }

  function BackoffMs(attempt: nat): int {
    BackoffNanos(attempt) / NS_PER_MS
  }

  lemma Pow2At28()
    ensures Pow2(28) == 268_435_456 && Pow2(29) == 536_870_912
  {
    assert Pow2(7) == 128;
    assert Pow2(14) == 16_384;
    assert Pow2(21) == 2_097_152;
    assert Pow2(28) == 268_435_456;
  }

  /** The shift-and-multiply is exact for every attempt up to 28 and for no other. */
  lemma BackoffExactIff(attempt: nat)
    ensures BackoffNanos(attempt) == Pow2(attempt) * THIRTY_SECONDS_NS <==> attempt <= 28
    ensures attempt <= 28 ==> BackoffMs(attempt) == 30_000 * Pow2(attempt)
  {
    Pow2At28();
    if attempt <= 28 {
      Pow2Monotone(attempt, 28);
    } else {
      Pow2Monotone(29, attempt);
      assert Pow2(attempt) * THIRTY_SECONDS_NS >= TWO_63;
    }
  }

  // ------------------------------------------------------------- one execution

  /** The run as execute() leaves it: started, then failed, put back or settled. */
  function Settled(run: Run, started: int, at: int, outcome: Outcome): Run {
    var r := run.(attempt := run.attempt + 1, status := Running, startedAt := Some(started));
    match outcome
    case Gone(reason) =>
      r.(status := Failed, finishedAt := Some(at), error := Some(reason))
    case Ran(_, job) =>
      var error := JobOutput(job).error;
      if error.None? then
        r.(status := Succeeded, finishedAt := Some(at), error := None)
      else if r.attempt < r.maxAttempts then
        var retryAt := at + BackoffMs(r.attempt);
        r.(status := Pending, scheduledAt := retryAt, nextRetryAt := Some(retryAt), finishedAt := None, error := error)
      else
        r.(status := Failed, finishedAt := Some(at), error := error)
  }

  /** The handler ran and got somewhere: some notifier passed all four gates, or the call returned no error. */
  predicate HandlerSucceeded(outcome: Outcome) {
    outcome.Ran? && match outcome.job
                    case NotifyJob(targets) =>
                      exists t :: t in targets && t.channelKnown && t.verified && t.secretsReadable && t.sendSucceeds
                    case CallJob(error) => error.None?
  }

  /** What one execution makes of a run, case by case. */
  lemma SettledMeans(run: Run, started: int, at: int, outcome: Outcome)
    ensures var r := Settled(run, started, at, outcome);
            && r.key == run.key && r.maxAttempts == run.maxAttempts && r.acknowledgedAt == run.acknowledgedAt
            && r.attempt == run.attempt + 1 && r.startedAt == Some(started)
            && (r.status == Succeeded <==> HandlerSucceeded(outcome))
            && (r.status == Pending <==>
                  outcome.Ran? && !HandlerSucceeded(outcome) && run.attempt + 1 < run.maxAttempts)
            && (r.status == Failed <==> r.status != Succeeded && r.status != Pending)
            && (r.status == Pending ==> r.finishedAt == None && r.nextRetryAt == Some(r.scheduledAt))
            && (r.status == Pending && run.attempt < 28 ==> r.scheduledAt == at + 30_000 * Pow2(run.attempt + 1))
            && (r.status != Pending ==>
                  r.finishedAt == Some(at) && r.scheduledAt == run.scheduledAt && r.nextRetryAt == run.nextRetryAt)
            && (outcome.Gone? ==> r.error == Some(outcome.reason))
            && (outcome.Ran? && outcome.job.CallJob? ==> r.error == outcome.job.error)
            && (r.error == None <==> r.status == Succeeded)
  {
    BackoffExactIff(run.attempt + 1);
    if outcome.Ran? && outcome.job.NotifyJob? {
      ErrorMeansNothingSent(outcome.job.targets);
    }
  }

  function Fresh(key: Key, scheduledAt: int, maxAttempts: int): Run {
    Run(key, Pending, scheduledAt, None, None, 0, maxAttempts, None, None, None)
  }

  function Successor(key: Key): Key {
    Key(key.chain, key.occ + 1)
  }

  function Interval(st: Settings): int {
    if st.intervalSeconds.Some? then st.intervalSeconds.value else 0
  }

  /** The follow-up scheduleNext writes at time `at`, if it writes one. */
  function NextRun(run: Run, st: Settings, at: int): Option<Run> {
    if st.mode != Recurring then None
    else if st.repeatMax.Some? && run.key.occ >= st.repeatMax.value then None
    else if run.acknowledgedAt.Some? && st.stopOnAck then None
    else if Interval(st) <= 0 then None
    else
      var next := at + Interval(st) * 1000;
      if st.repeatUntil.Some? && next > st.repeatUntil.value then None
      else Some(Fresh(Successor(run.key), next, run.maxAttempts))
  }

  /** When occurrence n + 1 is written after occurrence n, and the whole of what is written: due a repeat
      interval from now, with a fresh count and nothing carried over but the budget. */
  lemma NextRunIff(run: Run, st: Settings, at: int)
    ensures NextRun(run, st, at).Some? <==>
              && st.mode == Recurring
              && (st.repeatMax.Some? ==> run.key.occ < st.repeatMax.value)
              && !(run.acknowledgedAt.Some? && st.stopOnAck)
              && st.intervalSeconds.Some? && 0 < st.intervalSeconds.value
              && (st.repeatUntil.Some? ==> at + 1000 * st.intervalSeconds.value <= st.repeatUntil.value)
    ensures NextRun(run, st, at).Some? ==>
              NextRun(run, st, at).value
              == Run(Key(run.key.chain, run.key.occ + 1), Pending, at + 1000 * st.intervalSeconds.value,
                     None, None, 0, run.maxAttempts, None, None, None)
  {
  }

  // ------------------------------------------------------------- table updates

  /** Create behind the unique index: a duplicate key is refused and changes nothing. */
  function Inserted(rows: Rows, run: Run): Rows {
    if run.key in rows then rows else rows[run.key := run]
  }

  /** The claim transaction flips exactly the picked rows. */
  function Claimed(rows: Rows, picked: seq<Key>, at: int): Rows {
    map k | k in rows :: if k in picked then rows[k].(status := Running, startedAt := Some(at)) else rows[k]
  }

  predicate CancelHits(run: Run, chain: Chain, occ: int) {
    run.key.chain == chain && run.key.occ >= occ && run.status == Pending
  }

  /** CancelPendingAfter: one update over the pending runs of the chain from `occ` on. */
  function CancelledFrom(rows: Rows, chain: Chain, occ: int): Rows {
    map k | k in rows :: if CancelHits(rows[k], chain, occ) then rows[k].(status := Cancelled) else rows[k]
  }

  // ------------------------------------------------------------- the queue read

  predicate Due(run: Run, now: int) {
    run.status == Pending && run.scheduledAt <= now
  }

  /** A legal answer of ClaimDue: due rows nobody else has locked, oldest first, as many as the
      limit allows. Equal schedule times may come in any order. */
  ghost predicate IsClaim(rows: Rows, now: int, limit: nat, locked: set<Key>, picked: seq<Key>) {
    && |picked| <= limit
    && (forall i :: 0 <= i < |picked| ==> picked[i] in rows && Due(rows[picked[i]], now) && picked[i] !in locked)
    && (forall i, j :: 0 <= i < j < |picked| ==>
          picked[i] != picked[j] && rows[picked[i]].scheduledAt <= rows[picked[j]].scheduledAt)
    && (forall k :: k in rows && Due(rows[k], now) && k !in locked && k !in picked ==>
          |picked| == limit && forall i :: 0 <= i < |picked| ==> rows[picked[i]].scheduledAt <= rows[k].scheduledAt)
  }
}
