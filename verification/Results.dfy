/** What a settled status says about the executions behind it, over whole traces without Retry. */
module Results {
  import opened Common
  import opened Runs
  import opened Queue
  import opened Chains

  /** Execution i belongs to run k and its handler got somewhere. */
  ghost predicate SucceededIn(s: State, k: Key, i: int) {
    && 0 <= i < |s.attempts| && s.attempts[i].claimed.key == k
    && s.attempts[i].outcome.Some? && HandlerSucceeded(s.attempts[i].outcome.value)
  }

  /** Execution i belongs to run k and was its last: what it needed is gone, or the budget is used up. */
  ghost predicate GivenUpIn(s: State, k: Key, i: int) {
    && 0 <= i < |s.attempts| && s.attempts[i].claimed.key == k && s.attempts[i].outcome.Some?
    && !HandlerSucceeded(s.attempts[i].outcome.value)
    && (s.attempts[i].outcome.value.Gone? || s.attempts[i].claimed.maxAttempts <= s.attempts[i].claimed.attempt + 1)
  }

  ghost predicate ResultOk(s: State, k: Key) {
    && (k in s.rows && s.rows[k].status == Succeeded <==> exists i :: SucceededIn(s, k, i))
    && (k in s.rows && s.rows[k].status == Failed <==> exists i :: GivenUpIn(s, k, i))
  }

  /** An execution is recorded when it settles, and its row has the result from then on. */
  ghost predicate Reported(s: State) {
    && Good(s)
    && (forall i :: 0 <= i < |s.attempts| ==> (s.attempts[i].outcome.None? <==> s.attempts[i].phase.Working?))
    && forall k :: ResultOk(s, k)
  }

  lemma OthersKept(s: State, l: Label, k: Key, i: int)
    requires Reported(s) && Enabled(s, l) && !l.Retry? && !(l.Settle? && i == l.slot)
    ensures SucceededIn(Apply(s, l), k, i) <==> SucceededIn(s, k, i)
    ensures GivenUpIn(Apply(s, l), k, i) <==> GivenUpIn(s, k, i)
  {
  }

  lemma ResultSettled(s: State, l: Label, k: Key)
    requires Reported(s) && Enabled(s, l) && l.Settle?
    ensures ResultOk(Apply(s, l), k)
  {
    var t := Apply(s, l);
    var run := s.attempts[l.slot].claimed;
    SettleFacts(s, l);
    SettledMeans(run, l.started, l.at, l.outcome);
    assert ResultOk(s, k);
    forall i | i != l.slot
      ensures SucceededIn(t, k, i) <==> SucceededIn(s, k, i)
      ensures GivenUpIn(t, k, i) <==> GivenUpIn(s, k, i)
    {
      OthersKept(s, l, k, i);
    }
    assert !SucceededIn(s, k, l.slot) && !GivenUpIn(s, k, l.slot);
    assert SucceededIn(t, k, l.slot) <==> k == run.key && HandlerSucceeded(l.outcome);
    assert GivenUpIn(t, k, l.slot) <==> k == run.key && t.rows[run.key].status == Failed;
  }

  lemma ResultKept(s: State, l: Label, k: Key)
    requires Reported(s) && Enabled(s, l) && !l.Retry? && !l.Settle?
    ensures ResultOk(Apply(s, l), k)
  {
    assert ResultOk(s, k) && KeyOk(s.rows, k);
    forall i
      ensures SucceededIn(Apply(s, l), k, i) <==> SucceededIn(s, k, i)
      ensures GivenUpIn(Apply(s, l), k, i) <==> GivenUpIn(s, k, i)
    {
      OthersKept(s, l, k, i);
    }
    if l.Follow? {
      assert SlotOk(s, l.slot) && KeyOk(s.rows, s.attempts[l.slot].claimed.key);
    }
  }

  lemma ReportedStep(s: State, l: Label)
    requires Reported(s) && Enabled(s, l) && !l.Retry?
    ensures Reported(Apply(s, l))
  {
    GoodStep(s, l);
    forall k ensures ResultOk(Apply(s, l), k) {
      if l.Settle? { ResultSettled(s, l, k); } else { ResultKept(s, l, k); }
    }
  }

  lemma {:induction false} ReportedRun(s: State, tr: seq<Label>)
    requires Reported(s) && Legal(s, tr) && Automatic(tr)
    ensures Reported(Exec(s, tr))
    decreases |tr|
  {
    if tr != [] {
      ReportedStep(s, tr[0]);
      ReportedRun(Apply(s, tr[0]), tr[1..]);
    }
  }

  /** In every run without Retry: a run is succeeded exactly when some execution of it had a handler that ran
      and got somewhere, and failed exactly when some execution of it found its match, event or watcher gone
      or was the last of its budget. */
  lemma StatusMeans(now: int, tr: seq<Label>, k: Key)
    requires Legal(Empty(now), tr) && Automatic(tr)
    ensures var s := Exec(Empty(now), tr);
            && (k in s.rows && s.rows[k].status == Succeeded <==> exists i :: SucceededIn(s, k, i))
            && (k in s.rows && s.rows[k].status == Failed <==> exists i :: GivenUpIn(s, k, i))
  {
    GoodFromEmpty(now, []);
    ReportedRun(Empty(now), tr);
    assert ResultOk(Exec(Empty(now), tr), k);
  }
}
