/** The worker and the user actions as they are written: structs mutated field by field and saved whole.
    Each method is tied to the step functions the queue theorems are about. */
module Dispatcher {
  import opened Common
  import opened Notify
  import opened Runs
  import opened Queue

  /** The in-memory event_runs struct. */
  class EventRun {
    const key: Key
    var status: Status
    var scheduledAt: int
    var startedAt: Option<int>
    var finishedAt: Option<int>
    var attempt: nat
    var maxAttempts: int
    var nextRetryAt: Option<int>
    var acknowledgedAt: Option<int>
    var error: Option<string>

    function Value(): Run
      reads this
    {
      Run(key, status, scheduledAt, startedAt, finishedAt, attempt, maxAttempts, nextRetryAt, acknowledgedAt, error)
    }

    constructor (row: Run)
      ensures Value() == row
    {
      key := row.key;
      status := row.status;
      scheduledAt := row.scheduledAt;
      startedAt := row.startedAt;
      finishedAt := row.finishedAt;
      attempt := row.attempt;
      maxAttempts := row.maxAttempts;
      nextRetryAt := row.nextRetryAt;
      acknowledgedAt := row.acknowledgedAt;
      error := row.error;
    }
  }

  /** The rows a cancel from this occurrence on would stop. */
  function Hits(rows: Rows, chain: Chain, occ: int): (hit: set<Key>)
    ensures forall k :: k in hit <==>
                          && k in rows && rows[k].key.chain == chain && occ <= rows[k].key.occ
                          && rows[k].status == Pending
  {
    set k | k in rows && CancelHits(rows[k], chain, occ)
  }

  /** The event_runs table. */
  class RunTable {
    var rows: Rows

    constructor ()
      ensures rows == map[]
    {
      rows := map[];
    }

    /** Repository.Update: the whole row is replaced by the caller's struct. */
    method Save(run: EventRun)
      modifies this
      ensures rows == old(rows)[run.key := run.Value()]
    {
      rows := rows[run.key := run.Value()];
    }

    /** Repository.Create behind the unique (match, event, occurrence) index. */
    method Create(run: Run) returns (created: bool)
      modifies this
      ensures created <==> run.key !in old(rows)
      ensures rows == Inserted(old(rows), run)
      ensures rows == if created then old(rows)[run.key := run] else old(rows)
    {
      created := run.key !in rows;
      if created {
        rows := rows[run.key := run];
      }
    }

    method CancelPendingAfter(chain: Chain, occ: int) returns (affected: nat)
      modifies this
      ensures rows == CancelledFrom(old(rows), chain, occ)
      ensures affected == |Hits(old(rows), chain, occ)|
      ensures rows.Keys == old(rows).Keys
      ensures forall k :: k in rows ==>
                            rows[k] == if && old(rows)[k].key.chain == chain && occ <= old(rows)[k].key.occ
                                          && old(rows)[k].status == Pending
                                       then old(rows)[k].(status := Cancelled) else old(rows)[k]
    {
      var hit := Hits(rows, chain, occ);
      affected := |hit|;
      rows := map k | k in rows :: if k in hit then rows[k].(status := Cancelled) else rows[k];
    }
  }

  ghost predicate Keyed(rows: Rows) {
    forall k :: k in rows ==> rows[k].key == k
  }

  /** The user actions answer 404, 409, or how many pending runs they cancelled. */
  datatype Answer = NotFound | Conflict | Accepted(cancelled: nat)

  /** What execute() leaves in the table when nobody else touches it in between: the settled run and,
      after a success, the follow-up. */
  function ExecutedRows(rows: Rows, run: Run, started: int, at: int, outcome: Outcome, followAt: int): Rows {
    var settled := Settled(run, started, at, outcome);
    var saved := rows[run.key := settled];
    if settled.status == Succeeded && outcome.Ran?
    then FollowRows(saved, settled, outcome.settings, followAt)
    else saved
  }

  /** Executing is exactly the settle step, then the follow step if one is owed. */
  lemma ExecuteIsItsSteps(s: State, slot: nat, started: int, at: int, outcome: Outcome, followAt: int)
    requires Shape(s) && Enabled(s, Settle(slot, started, at, outcome)) && at <= followAt
    ensures var s1 := Apply(s, Settle(slot, started, at, outcome));
            var run := s.attempts[slot].claimed;
            if s1.attempts[slot].phase.Following?
            then Enabled(s1, Follow(slot, followAt))
                 && Apply(s1, Follow(slot, followAt)).rows == ExecutedRows(s.rows, run, started, at, outcome, followAt)
            else s1.rows == ExecutedRows(s.rows, run, started, at, outcome, followAt)
  {
    assert SlotOk(s, slot);
  }

  /** The notification_deliveries rows of one execution. */
  function Recorded(key: Key, items: seq<Delivery>): (ds: seq<(Key, Delivery)>)
    ensures |ds| == |items|
  {
    if items == [] then [] else Recorded(key, items[..|items| - 1]) + [(key, items[|items| - 1])]
  }

  lemma {:induction false} RecordedAt(key: Key, items: seq<Delivery>, i: nat)
    requires i < |items|
    ensures Recorded(key, items)[i] == (key, items[i])
    decreases |items|
  {
    if i < |items| - 1 {
      RecordedAt(key, items[..|items| - 1], i);
    }
  }

  // ------------------------------------------------------------ a whole tick

  /** The clock readings and the outcome of one execution. */
  datatype Execution = Execution(started: int, at: int, outcome: Outcome, followAt: int)

  function Executed(rows: Rows, run: Run, e: Execution): Rows {
    ExecutedRows(rows, run, e.started, e.at, e.outcome, e.followAt)
  }

  /** The table after the claimed structs have been executed one after the other. */
  function ExecutedAll(rows: Rows, runs: seq<Run>, work: seq<Execution>): Rows
    requires |work| == |runs|
    decreases |runs|
  {
    if runs == [] then rows else ExecutedAll(Executed(rows, runs[0], work[0]), runs[1..], work[1..])
  }

  /** The table after the first n of them. */
  function ExecutedFirst(rows: Rows, runs: seq<Run>, work: seq<Execution>, n: nat): Rows
    requires n <= |runs| == |work|
  {
    if n == 0 then rows else Executed(ExecutedFirst(rows, runs, work, n - 1), runs[n - 1], work[n - 1])
  }

  lemma {:induction false} FirstIsAll(rows: Rows, runs: seq<Run>, work: seq<Execution>, n: nat)
    requires n <= |runs| == |work|
    ensures ExecutedAll(ExecutedFirst(rows, runs, work, n), runs[n..], work[n..]) == ExecutedAll(rows, runs, work)
    decreases n
  {
    if n == 0 {
      assert runs[0..] == runs && work[0..] == work;
    } else {
      FirstIsAll(rows, runs, work, n - 1);
      assert runs[n - 1..][1..] == runs[n..] && work[n - 1..][1..] == work[n..];
    }
  }

  function WithDelivery(before: seq<(Key, Delivery)>, run: Run, e: Execution): seq<(Key, Delivery)> {
    before + Recorded(run.key, OutcomeDeliveries(e.outcome))
  }

  /** A list of deliveries with those of the first n executions appended. */
  function WithDeliveries(before: seq<(Key, Delivery)>, runs: seq<Run>, work: seq<Execution>, n: nat)
    : seq<(Key, Delivery)>
    requires n <= |runs| == |work|
  {
    if n == 0 then before
    else WithDelivery(WithDeliveries(before, runs, work, n - 1), runs[n - 1], work[n - 1])
  }

  lemma {:induction false} DeliveriesAreAppended(before: seq<(Key, Delivery)>, runs: seq<Run>, work: seq<Execution>,
                                                 n: nat)
    requires n <= |runs| == |work|
    ensures WithDeliveries(before, runs, work, n) == before + WithDeliveries([], runs, work, n)
    decreases n
  {
    if n > 0 {
      DeliveriesAreAppended(before, runs, work, n - 1);
      var items := Recorded(runs[n - 1].key, OutcomeDeliveries(work[n - 1].outcome));
      Append(before, WithDeliveries([], runs, work, n - 1), items);
    }
  }

  lemma Append<T>(a: seq<T>, b: seq<T>, c: seq<T>)
    ensures (a + b) + c == a + (b + c)
  {
  }

  function RowsOf(rows: Rows, picked: seq<Key>): (found: seq<Run>)
    requires forall i :: 0 <= i < |picked| ==> picked[i] in rows
    ensures |found| == |picked| && forall i :: 0 <= i < |found| ==> found[i] == rows[picked[i]]
  {
    seq(|picked|, i requires 0 <= i < |picked| => rows[picked[i]])
  }

  ghost predicate DistinctKeys(runs: seq<Run>) {
    forall i, j :: 0 <= i < j < |runs| ==> runs[i].key != runs[j].key
  }

  function SettledBy(run: Run, e: Execution): Run {
    Settled(run, e.started, e.at, e.outcome)
  }

  /** The follow-up a success leaves. */
  function FollowedBy(run: Run, e: Execution): Option<Run> {
    if e.outcome.Ran? && SettledBy(run, e).status == Succeeded
    then NextRun(SettledBy(run, e), e.outcome.settings, e.followAt) else None
  }

  /** A batch executes each claimed struct exactly once, and no execution undoes another: every claimed row
      ends as its own struct settled by its own outcome, rows outside the batch stay as they are, and what is
      new is the follow-up of one of them. */
  lemma {:induction false} BatchSettlesEach(rows: Rows, runs: seq<Run>, work: seq<Execution>, k: Key)
    requires |work| == |runs| && DistinctKeys(runs) && forall i :: 0 <= i < |runs| ==> runs[i].key in rows
    ensures var after := ExecutedAll(rows, runs, work);
            && (forall i :: 0 <= i < |runs| && runs[i].key == k ==>
                  k in after && after[k] == SettledBy(runs[i], work[i]))
            && (k in rows && (forall i :: 0 <= i < |runs| ==> runs[i].key != k) ==> k in after && after[k] == rows[k])
            && (k in after && k !in rows ==>
                  exists i :: 0 <= i < |runs| && FollowedBy(runs[i], work[i]) == Some(after[k]) && after[k].key == k)
    decreases |runs|
  {
    if runs != [] {
      var next := Executed(rows, runs[0], work[0]);
      BatchSettlesEach(next, runs[1..], work[1..], k);
      forall i | 0 < i < |runs| ensures runs[i] == runs[1..][i - 1] && work[i] == work[1..][i - 1] {}
      if k in next && k !in rows {
        assert FollowedBy(runs[0], work[0]) == Some(next[k]);
        assert forall i :: 0 <= i < |runs[1..]| ==> runs[1..][i].key in rows;
      }
    }
  }

  /** The executions of a batch take place one after the other, each within its claim. */
  ghost predicate InTurn(work: seq<Execution>, claimedAt: int, now: int)
    decreases |work|
  {
    work == [] ||
    (&& claimedAt <= work[0].started <= work[0].at && now <= work[0].at <= work[0].followAt
     && ValidOutcome(work[0].outcome) && InTurn(work[1..], claimedAt, work[0].followAt))
  }

  lemma ExecutionIsItsSteps(s: State, slot: nat, e: Execution) returns (tr: seq<Label>)
    requires Shape(s) && Enabled(s, Settle(slot, e.started, e.at, e.outcome)) && e.at <= e.followAt
    ensures Legal(s, tr) && Exec(s, tr).rows == Executed(s.rows, s.attempts[slot].claimed, e)
    ensures Shape(Exec(s, tr)) && Exec(s, tr).now <= e.followAt
    ensures |Exec(s, tr).attempts| == |s.attempts|
    ensures forall i :: 0 <= i < |s.attempts| && i != slot ==> Exec(s, tr).attempts[i] == s.attempts[i]
  {
    var l1, l2 := Settle(slot, e.started, e.at, e.outcome), Follow(slot, e.followAt);
    ExecuteIsItsSteps(s, slot, e.started, e.at, e.outcome, e.followAt);
    var s1 := Apply(s, l1);
    ShapeStep(s, l1);
    if s1.attempts[slot].phase.Following? {
      ShapeStep(s1, l2);
      TwoSteps(s, l1, l2);
      tr := [l1, l2];
    } else {
      OneStep(s, l1);
      tr := [l1];
    }
  }

  lemma {:induction false} BatchIsItsSteps(s: State, slot: nat, claimedAt: int, runs: seq<Run>, work: seq<Execution>)
    returns (tr: seq<Label>)
    requires Shape(s) && |work| == |runs| && slot + |runs| == |s.attempts| && InTurn(work, claimedAt, s.now)
    requires forall i :: 0 <= i < |runs| ==> s.attempts[slot + i] == Attempt(runs[i], claimedAt, Working, [], None)
    ensures Legal(s, tr) && Exec(s, tr).rows == ExecutedAll(s.rows, runs, work)
    decreases |runs|
  {
    if runs == [] {
      tr := [];
    } else {
      assert s.attempts[slot + 0] == Attempt(runs[0], claimedAt, Working, [], None);
      var first := ExecutionIsItsSteps(s, slot, work[0]);
      InTurnLater(work[1..], claimedAt, Exec(s, first).now, work[0].followAt);
      forall i | 0 <= i < |runs[1..]|
        ensures Exec(s, first).attempts[slot + 1 + i] == Attempt(runs[1..][i], claimedAt, Working, [], None)
      {
        assert s.attempts[slot + (i + 1)] == Attempt(runs[i + 1], claimedAt, Working, [], None);
      }
      var rest := BatchIsItsSteps(Exec(s, first), slot + 1, claimedAt, runs[1..], work[1..]);
      JoinTraces(s, first, rest);
      tr := first + rest;
    }
  }

  lemma InTurnLater(work: seq<Execution>, claimedAt: int, now: int, later: int)
    requires InTurn(work, claimedAt, later) && now <= later
    ensures InTurn(work, claimedAt, now)
  {
  }

  /** A whole tick is a legal run of the machine: the claim step, then the steps of each execution. */
  lemma TickIsItsSteps(s: State, limit: nat, locked: set<Key>, picked: seq<Key>, now: int, work: seq<Execution>)
    returns (tr: seq<Label>)
    requires Shape(s) && Enabled(s, Claim(picked, limit, locked, now)) && |work| == |picked| && InTurn(work, now, now)
    ensures Legal(s, tr)
    ensures Exec(s, tr).rows == ExecutedAll(Claimed(s.rows, picked, now), RowsOf(s.rows, picked), work)
  {
    var claim := Claim(picked, limit, locked, now);
    var s1 := Apply(s, claim);
    ShapeStep(s, claim);
    var runs := RowsOf(s.rows, picked);
    forall i | 0 <= i < |runs| ensures s1.attempts[|s.attempts| + i] == Attempt(runs[i], now, Working, [], None) {
      assert ClaimAttempts(s.rows, picked, now)[i] == Attempt(s.rows[picked[i]], now, Working, [], None);
    }
    var rest := BatchIsItsSteps(s1, |s.attempts|, now, runs, work);
    StepThen(s, claim, rest);
    tr := [claim] + rest;
  }

  class Worker {
    const runs: RunTable
    var deliveries: seq<(Key, Delivery)>

    constructor (runs: RunTable)
      ensures this.runs == runs && deliveries == []
    {
      this.runs := runs;
      deliveries := [];
    }

    /** The structs the queue read returns; the claim below does not touch them again. */
    method Load(picked: seq<Key>) returns (claimed: seq<EventRun>)
      requires forall i :: 0 <= i < |picked| ==> picked[i] in runs.rows
      ensures |claimed| == |picked| && fresh(claimed)
      ensures forall i :: 0 <= i < |claimed| ==> claimed[i].Value() == runs.rows[picked[i]]
      ensures forall i, j :: 0 <= i < j < |claimed| ==> claimed[i] != claimed[j]
    {
      claimed := [];
      for i := 0 to |picked|
        invariant |claimed| == i && fresh(claimed)
        invariant forall k :: 0 <= k < i ==> claimed[k].Value() == runs.rows[picked[k]]
        invariant forall j, k :: 0 <= j < k < i ==> claimed[j] != claimed[k]
      {
        var run := new EventRun(runs.rows[picked[i]]);
        claimed := claimed + [run];
      }
    }

    /** Tick's claim transaction: flip each row the queue read answered with. */
    method Claim(now: int, limit: nat, locked: set<Key>, picked: seq<Key>)
      requires IsClaim(runs.rows, now, limit, locked, picked)
      modifies runs
      ensures runs.rows == Claimed(old(runs.rows), picked, now)
      ensures runs.rows.Keys == old(runs.rows).Keys
      ensures forall k :: k in runs.rows ==>
                            runs.rows[k] == if k in picked
                                            then old(runs.rows)[k].(status := Running, startedAt := Some(now))
                                            else old(runs.rows)[k]
    {
      assert picked[..0] == [];
      for i := 0 to |picked|
        invariant runs.rows == Claimed(old(runs.rows), picked[..i], now)
      {
        var k := picked[i];
        assert picked[..i + 1] == picked[..i] + [k];
        assert k !in picked[..i];
        runs.rows := runs.rows[k := runs.rows[k].(status := Running, startedAt := Some(now))];
      }
      assert picked[..|picked|] == picked;
    }

    method WriteDeliveries(key: Key, items: seq<Delivery>)
      modifies this`deliveries
      ensures deliveries == old(deliveries) + Recorded(key, items)
      ensures |deliveries| == |old(deliveries)| + |items|
      ensures forall i :: 0 <= i < |items| ==> deliveries[|old(deliveries)| + i] == (key, items[i])
    {
      for i := 0 to |items|
        invariant deliveries == old(deliveries) + Recorded(key, items[..i])
      {
        assert items[..i + 1] == items[..i] + [items[i]];
        deliveries := deliveries + [(key, items[i])];
      }
      assert items[..|items|] == items;
      forall i | 0 <= i < |items| ensures deliveries[|old(deliveries)| + i] == (key, items[i]) {
        RecordedAt(key, items, i);
      }
    }

    method Fail(run: EventRun, at: int, reason: string)
      modifies run, runs
      ensures run.Value() == old(run.Value()).(status := Failed, finishedAt := Some(at), error := Some(reason))
      ensures runs.rows == old(runs.rows)[run.key := run.Value()]
    {
      run.status := Failed;
      run.finishedAt := Some(at);
      run.error := Some(reason);
      runs.Save(run);
    }

    method ScheduleNext(run: EventRun, event: Settings, at: int)
      modifies runs
      ensures runs.rows == FollowRows(old(runs.rows), run.Value(), event, at)
      ensures var next := Key(run.key.chain, run.key.occ + 1);
              && (next !in old(runs.rows) ==>
                    (next in runs.rows <==>
                       && event.mode == Recurring
                       && (event.repeatMax.Some? ==> run.key.occ < event.repeatMax.value)
                       && !(run.acknowledgedAt.Some? && event.stopOnAck)
                       && event.intervalSeconds.Some? && 0 < event.intervalSeconds.value
                       && (event.repeatUntil.Some? ==>
                             at + 1000 * event.intervalSeconds.value <= event.repeatUntil.value)))
              && (next !in old(runs.rows) && next in runs.rows ==>
                    runs.rows[next] == Run(next, Pending, at + 1000 * event.intervalSeconds.value, None, None, 0,
                                           run.maxAttempts, None, None, None))
              && (forall k :: k in old(runs.rows) ==> k in runs.rows && runs.rows[k] == old(runs.rows)[k])
              && (forall k :: k in runs.rows && k !in old(runs.rows) ==> k == next)
    {
      if event.mode != Recurring {
        return;
      }
      if event.repeatMax.Some? && run.key.occ >= event.repeatMax.value {
        return;
      }
      if run.acknowledgedAt.Some? && event.stopOnAck {
        return;
      }
      var interval := 0;
      if event.intervalSeconds.Some? {
        interval := event.intervalSeconds.value;
      }
      if interval <= 0 {
        return;
      }
      var next := at + interval * 1000;
      if event.repeatUntil.Some? && next > event.repeatUntil.value {
        return;
      }
      var follow := Fresh(Key(run.key.chain, run.key.occ + 1), next, run.maxAttempts);
      var _ := runs.Create(follow);
    }

    /** The failed branch of execute(): put back with a backoff while attempts are left, given up otherwise. */
    method RetryOrGiveUp(run: EventRun, at: int, error: string)
      modifies run, runs
      ensures run.Value() == (
                var r := old(run.Value());
                if r.attempt < r.maxAttempts then
                  var retryAt := at + BackoffMs(r.attempt);
                  r.(status := Pending, scheduledAt := retryAt, nextRetryAt := Some(retryAt), finishedAt := None,
                     error := Some(error))
                else
                  r.(status := Failed, error := Some(error)))
      ensures runs.rows == old(runs.rows)[run.key := run.Value()]
    {
      run.error := Some(error);
      if run.attempt < run.maxAttempts {
        var retryAt := at + BackoffMs(run.attempt);
        run.status := Pending;
        run.scheduledAt := retryAt;
        run.nextRetryAt := Some(retryAt);
        run.finishedAt := None;
        runs.Save(run);
        return;
      }
      run.status := Failed;
      runs.Save(run);
    }

    /** The succeeded branch: saved, then followed up. */
    method Succeed(run: EventRun, event: Settings, followAt: int)
      modifies run, runs
      ensures run.Value() == old(run.Value()).(status := Succeeded, error := None)
      ensures runs.rows == FollowRows(old(runs.rows)[run.key := run.Value()], run.Value(), event, followAt)
    {
      run.status := Succeeded;
      run.error := None;
      runs.Save(run);
      ScheduleNext(run, event, followAt);
    }

    /** execute(): every exit path saves the struct; only a success goes on to scheduleNext. */
    method Perform(run: EventRun, started: int, at: int, outcome: Outcome, followAt: int)
      modifies this`deliveries, run, runs
      ensures run.Value() == Settled(old(run.Value()), started, at, outcome)
      ensures runs.rows == ExecutedRows(old(runs.rows), old(run.Value()), started, at, outcome, followAt)
      ensures deliveries == old(deliveries) + Recorded(run.key, OutcomeDeliveries(outcome))
    {
      run.attempt := run.attempt + 1;
      run.status := Running;
      run.startedAt := Some(started);

      if outcome.Gone? {
        Fail(run, at, outcome.reason);
        return;
      }

      var output := JobOutput(outcome.job);
      WriteDeliveries(run.key, output.deliveries);
      run.finishedAt := Some(at);

      if output.error.Some? {
        RetryOrGiveUp(run, at, output.error.value);
        return;
      }

      Succeed(run, outcome.settings, followAt);
    }

    /** Execute(): the same, and what it means for the run, case by case. */
    method Execute(run: EventRun, started: int, at: int, outcome: Outcome, followAt: int)
      modifies this`deliveries, run, runs
      ensures run.Value() == Settled(old(run.Value()), started, at, outcome)
      ensures runs.rows == ExecutedRows(old(runs.rows), old(run.Value()), started, at, outcome, followAt)
      ensures deliveries == old(deliveries) + Recorded(run.key, OutcomeDeliveries(outcome))
      ensures run.attempt == old(run.attempt) + 1 && run.startedAt == Some(started)
      ensures run.status == Succeeded <==> HandlerSucceeded(outcome)
      ensures run.status == Pending <==>
                outcome.Ran? && !HandlerSucceeded(outcome) && old(run.attempt) + 1 < old(run.maxAttempts)
      ensures run.status == Pending ==> run.finishedAt == None && run.nextRetryAt == Some(run.scheduledAt)
      ensures run.status == Pending && old(run.attempt) < 28 ==>
                run.scheduledAt == at + 30_000 * Pow2(old(run.attempt) + 1)
      ensures run.status == Succeeded || run.status == Failed ==> run.finishedAt == Some(at)
      ensures outcome.Gone? ==> run.status == Failed && run.error == Some(outcome.reason)
      ensures run.key in runs.rows && runs.rows[run.key] == run.Value()
    {
      SettledMeans(run.Value(), started, at, outcome);
      ghost var before := run.Value();
      Perform(run, started, at, outcome, followAt);
      assert runs.rows[before.key] == run.Value();
    }

    /** What one slot of the pool does. */
    method ExecuteItem(run: EventRun, ghost value: Run, e: Execution)
      requires run.Value() == value
      modifies this`deliveries, run, runs
      ensures runs.rows == Executed(old(runs.rows), value, e)
      ensures deliveries == WithDelivery(old(deliveries), value, e)
    {
      Perform(run, e.started, e.at, e.outcome, e.followAt);
    }

    /** runBatch: one execution for each claimed struct. */
    method RunBatch(claimed: seq<EventRun>, ghost values: seq<Run>, work: seq<Execution>)
      requires |work| == |claimed| == |values|
      requires forall i :: 0 <= i < |claimed| ==> claimed[i].Value() == values[i]
      requires forall i, j :: 0 <= i < j < |claimed| ==> claimed[i] != claimed[j]
      modifies this`deliveries, runs, claimed
      ensures runs.rows == ExecutedFirst(old(runs.rows), values, work, |work|)
      ensures deliveries == WithDeliveries(old(deliveries), values, work, |work|)
    {
      for i := 0 to |claimed|
        invariant forall j :: i <= j < |claimed| ==> unchanged(claimed[j])
        invariant runs.rows == ExecutedFirst(old(runs.rows), values, work, i)
        invariant deliveries == WithDeliveries(old(deliveries), values, work, i)
      {
        ExecuteItem(claimed[i], values[i], work[i]);
      }
    }

    /** Tick: the due rows are read into structs, flipped, and the structs executed. */
    method Tick(now: int, limit: nat, locked: set<Key>, picked: seq<Key>, work: seq<Execution>) returns (handled: nat)
      requires IsClaim(runs.rows, now, limit, locked, picked) && |work| == |picked|
      modifies this`deliveries, runs
      ensures handled == |picked|
      ensures runs.rows == ExecutedAll(Claimed(old(runs.rows), picked, now), RowsOf(old(runs.rows), picked), work)
      ensures deliveries == WithDeliveries(old(deliveries), RowsOf(old(runs.rows), picked), work, |work|)
    {
      var claimed := Load(picked);
      Claim(now, limit, locked, picked);
      ghost var flipped := runs.rows;
      RunBatch(claimed, RowsOf(old(runs.rows), picked), work);
      FirstIsAll(flipped, RowsOf(old(runs.rows), picked), work, |work|);
      handled := |claimed|;
    }

    /** Retry: refused while the run is in flight, otherwise restarted from attempt 0 and executed at once. */
    method Retry(key: Key, now: int, started: int, at: int, outcome: Outcome, followAt: int) returns (answer: Answer)
      requires Keyed(runs.rows)
      modifies this`deliveries, runs
      ensures answer == (if key !in old(runs.rows) then NotFound
                         else if old(runs.rows)[key].status == Running then Conflict else Accepted(0))
      ensures !answer.Accepted? ==> runs.rows == old(runs.rows) && deliveries == old(deliveries)
      ensures answer.Accepted? ==>
                var restarted := Restarted(old(runs.rows)[key], now);
                && runs.rows
                   == ExecutedRows(old(runs.rows)[key := restarted], restarted, started, at, outcome, followAt)
                && deliveries == old(deliveries) + Recorded(key, OutcomeDeliveries(outcome))
    {
      if key !in runs.rows {
        return NotFound;
      }
      var run := new EventRun(runs.rows[key]);
      if run.status == Running {
        return Conflict;
      }
      run.status := Running;
      run.attempt := 0;
      run.error := None;
      run.finishedAt := None;
      run.startedAt := Some(now);
      runs.Save(run);
      Execute(run, started, at, outcome, followAt);
      answer := Accepted(0);
    }

    method Cancel(key: Key) returns (answer: Answer)
      requires Keyed(runs.rows)
      modifies runs
      ensures key !in old(runs.rows) ==> answer == NotFound && runs.rows == old(runs.rows)
      ensures key in old(runs.rows) ==>
                && runs.rows == CancelledFrom(old(runs.rows), key.chain, key.occ)
                && answer == Accepted(|Hits(old(runs.rows), key.chain, key.occ)|)
    {
      if key !in runs.rows {
        return NotFound;
      }
      var cancelled := runs.CancelPendingAfter(key.chain, key.occ);
      answer := Accepted(cancelled);
    }

    method Ack(key: Key, now: int, event: Option<Settings>) returns (answer: Answer)
      requires Keyed(runs.rows)
      modifies runs
      ensures key !in old(runs.rows) ==> answer == NotFound && runs.rows == old(runs.rows)
      ensures key in old(runs.rows) ==> runs.rows == AckedRows(old(runs.rows), key, now, event)
      ensures key in old(runs.rows) ==>
                answer == Accepted(if event.None? || !event.value.stopOnAck then 0
                                   else |Hits(old(runs.rows), key.chain, key.occ + 1)|)
    {
      if key !in runs.rows {
        return NotFound;
      }
      var run := new EventRun(runs.rows[key]);
      run.acknowledgedAt := Some(now);
      runs.Save(run);
      var cancelled := 0;
      if event.Some? && event.value.stopOnAck {
        ghost var saved := runs.rows;
        cancelled := runs.CancelPendingAfter(key.chain, key.occ + 1);
        assert Hits(saved, key.chain, key.occ + 1) == Hits(old(runs.rows), key.chain, key.occ + 1);
      }
      answer := Accepted(cancelled);
    }
  }
}
