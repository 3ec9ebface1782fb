/** The event_runs queue as a state machine: every database transaction of a worker or a user is one
    step, and steps of any number of workers and users interleave freely. */
module Queue {
  import opened Common
  import opened Notify
  import opened Runs

  /** Where a worker is with a run it holds: the handler is pending or in flight, or the run is saved as
      succeeded and scheduleNext is still to come, or nothing is left to do. */
  datatype Phase = Working | Following(run: Run, settings: Settings) | Done

  /** One entry per claim. `claimed` is the in-memory struct the worker got, so it does not see later
      changes to the row; the whole of it is written back when the execution settles. The outcome is kept for
      the record. */
  datatype Attempt = Attempt(claimed: Run, at: int, phase: Phase, deliveries: seq<Delivery>, outcome: Option<Outcome>)

  datatype State = State(now: int, rows: Rows, attempts: seq<Attempt>)

  datatype Label =
    | Schedule(chain: Chain, delaySeconds: nat, maxAttempts: int, at: int)
    | Claim(picked: seq<Key>, limit: nat, locked: set<Key>, at: int)
    | Settle(slot: nat, started: int, at: int, outcome: Outcome)
    | Follow(slot: nat, at: int)
    | Cancel(key: Key, at: int)
    | Ack(key: Key, at: int, event: Option<Settings>)
    | Retry(key: Key, at: int)

  function Empty(now: int): State {
    State(now, map[], [])
  }

  ghost predicate ValidOutcome(outcome: Outcome) {
    outcome.Ran? && outcome.job.NotifyJob? ==> DistinctTargets(outcome.job.targets)
  }

  ghost predicate Enabled(s: State, l: Label) {
    && s.now <= l.at
    && match l
       case Schedule(_, _, _, _) => true
       case Claim(picked, limit, locked, at) => IsClaim(s.rows, at, limit, locked, picked)
       case Settle(slot, started, at, outcome) =>
         && slot < |s.attempts| && s.attempts[slot].phase.Working?
         && s.attempts[slot].at <= started <= at
         && ValidOutcome(outcome)
       case Follow(slot, _) => slot < |s.attempts| && s.attempts[slot].phase.Following?
       case Cancel(key, _) => key in s.rows
       case Ack(key, _, _) => key in s.rows
       case Retry(key, _) => key in s.rows && s.rows[key].status != Running
  }

  /** The struct Retry saves and then executes. */
  function Restarted(run: Run, at: int): Run {
    run.(status := Running, attempt := 0, error := None, finishedAt := None, startedAt := Some(at))
  }

  /** Retry starts over: no attempt used, no error, no end, and in flight from now on; the schedule, the
      acknowledgement and the budget stay. */
  lemma RestartedMeans(run: Run, at: int)
    ensures var r := Restarted(run, at);
            && r.status == Running && r.attempt == 0 && r.error == None && r.finishedAt == None
            && r.startedAt == Some(at)
            && r.key == run.key && r.scheduledAt == run.scheduledAt && r.maxAttempts == run.maxAttempts
            && r.nextRetryAt == run.nextRetryAt && r.acknowledgedAt == run.acknowledgedAt
  {
  }

  function AckedRows(rows: Rows, key: Key, at: int, event: Option<Settings>): Rows
    requires key in rows
  {
    var saved := rows[key := rows[key].(acknowledgedAt := Some(at))];
    if event.Some? && event.value.stopOnAck
    then CancelledFrom(saved, key.chain, key.occ + 1)
    else saved
  }

  /** An acknowledgement stamps the run whatever the event says; only pending runs after it change besides, and
      they are cancelled exactly when the event is there and stops on it. */
  lemma AckedMeans(rows: Rows, key: Key, at: int, event: Option<Settings>, k: Key)
    requires key in rows && rows[key].key == key && (k in rows ==> rows[k].key == k)
    ensures var after := AckedRows(rows, key, at, event);
            && (k in after <==> k in rows)
            && after[key] == rows[key].(acknowledgedAt := Some(at))
            && (k in rows && k != key ==>
                  after[k] == if && event.Some? && event.value.stopOnAck && rows[k].status == Pending
                                 && k.chain == key.chain && key.occ < k.occ
                              then rows[k].(status := Cancelled) else rows[k])
  {
  }

  function ClaimAttempts(rows: Rows, picked: seq<Key>, at: int): (more: seq<Attempt>)
    requires forall i :: 0 <= i < |picked| ==> picked[i] in rows
    ensures |more| == |picked|
    ensures forall i :: 0 <= i < |more| ==> more[i] == Attempt(rows[picked[i]], at, Working, [], None)
  {
    seq(|picked|, i requires 0 <= i < |picked| => Attempt(rows[picked[i]], at, Working, [], None))
  }

  function AfterSettle(outcome: Outcome, settled: Run): Phase {
    if settled.status == Succeeded && outcome.Ran? then Following(settled, outcome.settings) else Done
  }

  function FollowRows(rows: Rows, run: Run, settings: Settings, at: int): Rows {
    var next := NextRun(run, settings, at);
    if next.None? then rows else Inserted(rows, next.value)
  }

  ghost function Apply(s: State, l: Label): State
    requires Enabled(s, l)
  {
    match l
    case Schedule(chain, delay, maxAttempts, at) =>
      s.(now := at, rows := Inserted(s.rows, Fresh(Key(chain, 1), at + delay * 1000, maxAttempts)))
    case Claim(picked, _, _, at) =>
      State(at, Claimed(s.rows, picked, at), s.attempts + ClaimAttempts(s.rows, picked, at))
    case Settle(slot, started, at, outcome) =>
      var a := s.attempts[slot];
      var run := Settled(a.claimed, started, at, outcome);
      State(at, s.rows[run.key := run],
            s.attempts[slot := a.(phase := AfterSettle(outcome, run), deliveries := OutcomeDeliveries(outcome),
                                  outcome := Some(outcome))])
    case Follow(slot, at) =>
      var a := s.attempts[slot];
      State(at, FollowRows(s.rows, a.phase.run, a.phase.settings, at), s.attempts[slot := a.(phase := Done)])
    case Cancel(key, at) =>
      s.(now := at, rows := CancelledFrom(s.rows, key.chain, key.occ))
    case Ack(key, at, event) =>
      s.(now := at, rows := AckedRows(s.rows, key, at, event))
    case Retry(key, at) =>
      var run := Restarted(s.rows[key], at);
      State(at, s.rows[key := run], s.attempts + [Attempt(run, at, Working, [], None)])
  }

  ghost predicate Legal(s: State, tr: seq<Label>)
    decreases |tr|
  {
    tr == [] || (Enabled(s, tr[0]) && Legal(Apply(s, tr[0]), tr[1..]))
  }

  ghost function Exec(s: State, tr: seq<Label>): State
    requires Legal(s, tr)
    decreases |tr|
  {
    if tr == [] then s else Exec(Apply(s, tr[0]), tr[1..])
  }

  lemma {:induction false} JoinTraces(s: State, tr: seq<Label>, more: seq<Label>)
    requires Legal(s, tr) && Legal(Exec(s, tr), more)
    ensures Legal(s, tr + more) && Exec(s, tr + more) == Exec(Exec(s, tr), more)
    decreases |tr|
  {
    if tr == [] {
      assert tr + more == more;
    } else {
      assert (tr + more)[1..] == tr[1..] + more;
      JoinTraces(Apply(s, tr[0]), tr[1..], more);
    }
  }

  lemma StepThen(s: State, l: Label, rest: seq<Label>)
    requires Enabled(s, l) && Legal(Apply(s, l), rest)
    ensures Legal(s, [l] + rest) && Exec(s, [l] + rest) == Exec(Apply(s, l), rest)
  {
    assert ([l] + rest)[1..] == rest;
  }

  lemma TwoSteps(s: State, l1: Label, l2: Label)
    requires Enabled(s, l1) && Enabled(Apply(s, l1), l2)
    ensures Legal(s, [l1, l2]) && Exec(s, [l1, l2]) == Apply(Apply(s, l1), l2)
  {
    assert [l1, l2][1..] == [l2];
    OneStep(Apply(s, l1), l2);
  }

  lemma OneStep(s: State, l: Label)
    requires Enabled(s, l)
    ensures Legal(s, [l]) && Exec(s, [l]) == Apply(s, l)
  {
    assert [l][1..] == [];
  }

  /** No manual Retry anywhere in the trace. */
  ghost predicate Automatic(tr: seq<Label>) {
    forall i :: 0 <= i < |tr| ==> !tr[i].Retry?
  }

  // --------------------------------------------------------------- invariants

  ghost predicate KeyOk(rows: Rows, k: Key) {
    k in rows ==> rows[k].key == k && 1 <= k.occ && (1 < k.occ ==> Key(k.chain, k.occ - 1) in rows)
  }

  /** Rows sit under their own key and no occurrence is missing below an existing one. */
  ghost predicate Contiguous(rows: Rows) {
    forall k :: KeyOk(rows, k)
  }

  ghost predicate Works(attempts: seq<Attempt>, i: int, k: Key) {
    0 <= i < |attempts| && attempts[i].phase.Working? && attempts[i].claimed.key == k
  }

  ghost predicate SlotOk(s: State, i: int)
    requires 0 <= i < |s.attempts|
  {
    var a := s.attempts[i];
    && a.at <= s.now
    && a.claimed.key in s.rows
    && (a.phase.Working? ==> s.rows[a.claimed.key].status == Running)
    && (a.phase.Following? ==> a.phase.run.key == a.claimed.key)
  }

  ghost predicate Slots(s: State) {
    forall i :: 0 <= i < |s.attempts| ==> SlotOk(s, i)
  }

  /** No run is held by two workers. */
  ghost predicate Exclusive(attempts: seq<Attempt>) {
    forall i, j, k :: Works(attempts, i, k) && Works(attempts, j, k) ==> i == j
  }

  /** A row is running only while some worker holds it. */
  ghost predicate Owned(s: State) {
    forall k :: k in s.rows && s.rows[k].status == Running ==> exists i :: Works(s.attempts, i, k)
  }

  ghost predicate Shape(s: State) {
    Contiguous(s.rows) && Slots(s) && Exclusive(s.attempts) && Owned(s)
  }

  // ------------------------------------------------------ preservation, any step

  lemma ContiguousStep(s: State, l: Label)
    requires Shape(s) && Enabled(s, l)
    ensures Contiguous(Apply(s, l).rows)
  {
    var rows, rows' := s.rows, Apply(s, l).rows;
    if l.Settle? { assert SlotOk(s, l.slot); }
    if l.Follow? { assert SlotOk(s, l.slot); }
    forall k ensures KeyOk(rows', k) {
      assert KeyOk(rows, k);
      assert KeyOk(rows, Key(k.chain, k.occ - 1));
    }
  }

  lemma SlotsStep(s: State, l: Label)
    requires Shape(s) && Enabled(s, l)
    ensures Slots(Apply(s, l))
  {
    var s' := Apply(s, l);
    forall i | 0 <= i < |s'.attempts| ensures SlotOk(s', i) {
      if i < |s.attempts| {
        assert SlotOk(s, i);
        if l.Settle? && i != l.slot && s.attempts[i].phase.Working? {
          var k := s.attempts[i].claimed.key;
          assert Works(s.attempts, i, k);
          assert !Works(s.attempts, l.slot, k);
        }
      } else {
        assert l.Claim? ==> KeyOk(s.rows, l.picked[i - |s.attempts|]);
        assert l.Retry? ==> KeyOk(s.rows, l.key);
      }
    }
  }

  lemma ExclusiveStep(s: State, l: Label)
    requires Shape(s) && Enabled(s, l)
    ensures Exclusive(Apply(s, l).attempts)
  {
    var s' := Apply(s, l);
    forall i, j, k | Works(s'.attempts, i, k) && Works(s'.attempts, j, k) ensures i == j {
      var n := |s.attempts|;
      if i < n { assert SlotOk(s, i); assert Works(s.attempts, i, k); }
      if j < n { assert SlotOk(s, j); assert Works(s.attempts, j, k); }
      if l.Claim? {
        if i >= n { assert l.picked[i - n] == k by { assert KeyOk(s.rows, l.picked[i - n]); } }
        if j >= n { assert l.picked[j - n] == k by { assert KeyOk(s.rows, l.picked[j - n]); } }
      }
      if l.Retry? { assert KeyOk(s.rows, l.key); }
    }
  }

  lemma OwnedStep(s: State, l: Label)
    requires Shape(s) && Enabled(s, l)
    ensures Owned(Apply(s, l))
  {
    var s' := Apply(s, l);
    var n := |s.attempts|;
    forall k | k in s'.rows && s'.rows[k].status == Running ensures exists i :: Works(s'.attempts, i, k) {
      if l.Claim? && k in l.picked {
        var j :| 0 <= j < |l.picked| && l.picked[j] == k;
        assert KeyOk(s.rows, k);
        assert Works(s'.attempts, n + j, k);
      } else if l.Retry? && k == l.key {
        assert KeyOk(s.rows, k);
        assert Works(s'.attempts, n, k);
      } else {
        assert k in s.rows && s.rows[k].status == Running;
        var i :| Works(s.attempts, i, k);
        assert Works(s'.attempts, i, k);
      }
    }
  }

  lemma ShapeStep(s: State, l: Label)
    requires Shape(s) && Enabled(s, l)
    ensures Shape(Apply(s, l))
  {
    ContiguousStep(s, l);
    SlotsStep(s, l);
    ExclusiveStep(s, l);
    OwnedStep(s, l);
  }

  lemma {:induction false} ShapeRun(s: State, tr: seq<Label>)
    requires Shape(s) && Legal(s, tr)
    ensures Shape(Exec(s, tr))
    decreases |tr|
  {
    if tr != [] {
      ShapeStep(s, tr[0]);
      ShapeRun(Apply(s, tr[0]), tr[1..]);
    }
  }
}
