/** Exactly when a Cancel, or an Ack with stop_on_ack, ends a repeat chain. The code promises both
    unconditionally; they hold unless a worker already has hold of the chain. */
module Stopping {
  import opened Common
  import opened Runs
  import opened Queue
  import opened Chains

  /** Between s and the later state t nothing of chain c above occurrence m was claimed. */
  ghost predicate Silent(s: State, t: State, c: Chain, m: int) {
    forall i :: |s.attempts| <= i < |t.attempts| ==>
      !(t.attempts[i].claimed.key.chain == c && m < t.attempts[i].claimed.key.occ)
  }

  ghost predicate ClaimedBeyond(s: State, tr: seq<Label>, c: Chain, m: int) {
    Legal(s, tr) && Automatic(tr) && !Silent(s, Exec(s, tr), c, m)
  }

  lemma {:induction false} AttemptsKept(s: State, tr: seq<Label>)
    requires Legal(s, tr)
    ensures |s.attempts| <= |Exec(s, tr).attempts|
    ensures forall i :: 0 <= i < |s.attempts| ==> Exec(s, tr).attempts[i].claimed == s.attempts[i].claimed
    decreases |tr|
  {
    if tr != [] {
      AttemptsKept(Apply(s, tr[0]), tr[1..]);
    }
  }

  /** Once scheduleNext would write nothing, waiting or acknowledging does not change that. */
  lemma NextRunStaysNone(run: Run, st: Settings, at: int, later: int)
    requires NextRun(run, st, at).None? && at <= later
    ensures NextRun(run, st, later).None?
  {
  }

  // ------------------------------------------------------ fixed event settings

  ghost predicate LabelFixed(s: State, l: Label, eventId: string, st: Settings)
    requires Enabled(s, l)
  {
    && (l.Settle? && l.outcome.Ran? && s.attempts[l.slot].claimed.key.chain.eventId == eventId ==>
          l.outcome.settings == st)
    && (l.Ack? && l.event.Some? && l.key.chain.eventId == eventId ==> l.event == Some(st))
  }

  /** Wherever the trace reads this event, it reads the settings st. */
  ghost predicate Fixed(s: State, tr: seq<Label>, eventId: string, st: Settings)
    requires Legal(s, tr)
    decreases |tr|
  {
    tr == [] || (LabelFixed(s, tr[0], eventId, st) && Fixed(Apply(s, tr[0]), tr[1..], eventId, st))
  }

  ghost predicate ReadsNoEvent(tr: seq<Label>) {
    forall i :: 0 <= i < |tr| ==> !tr[i].Settle? && !tr[i].Ack?
  }

  lemma {:induction false} FixedIfUnread(s: State, tr: seq<Label>, eventId: string, st: Settings)
    requires Legal(s, tr) && ReadsNoEvent(tr)
    ensures Fixed(s, tr, eventId, st)
    decreases |tr|
  {
    if tr != [] {
      FixedIfUnread(Apply(s, tr[0]), tr[1..], eventId, st);
    }
  }

  // --------------------------------------------------------- extending a chain

  /** The one-row claim of k as soon as it is due; other workers hold all other rows locked. */
  function ClaimOnly(s: State, k: Key): Label
    requires k in s.rows
  {
    Claim([k], 1, s.rows.Keys - {k}, Max(s.now, s.rows[k].scheduledAt))
  }

  lemma ClaimBreaksSilence(s0: State, s: State, k: Key, m: int)
    requires Contiguous(s.rows) && k in s.rows && s.rows[k].status == Pending && m < k.occ
    requires |s0.attempts| <= |s.attempts|
    ensures Enabled(s, ClaimOnly(s, k))
    ensures !Silent(s0, Apply(s, ClaimOnly(s, k)), k.chain, m)
  {
    assert KeyOk(s.rows, k);
    var t := Apply(s, ClaimOnly(s, k));
    assert t.attempts[|s.attempts|].claimed == s.rows[k];
  }

  /** A worker between its save and scheduleNext can still extend the chain and have the result claimed. */
  lemma FollowExtends(s: State, i: nat, m: int) returns (tr: seq<Label>)
    requires Good(s) && i < |s.attempts| && s.attempts[i].phase.Following?
    requires Successor(s.attempts[i].claimed.key) !in s.rows
    requires NextRun(s.attempts[i].phase.run, s.attempts[i].phase.settings, s.now).Some?
    requires m <= s.attempts[i].claimed.key.occ
    ensures ReadsNoEvent(tr)
    ensures ClaimedBeyond(s, tr, s.attempts[i].claimed.key.chain, m)
  {
    assert SlotOk(s, i) && TracksOk(s, i);
    var k := Successor(s.attempts[i].claimed.key);
    var s1 := Apply(s, Follow(i, s.now));
    GoodStep(s, Follow(i, s.now));
    ClaimBreaksSilence(s, s1, k, m);
    var l2 := ClaimOnly(s1, k);
    tr := [Follow(i, s.now), l2];
    assert tr[1..] == [l2];
    assert Legal(s1, [l2]) by { assert [l2][1..] == []; }
    assert Exec(s1, [l2]) == Apply(s1, l2) by { assert [l2][1..] == []; }
  }

  /** A worker still executing can succeed and, where settings allow, write and start the next occurrence. */
  lemma WorkExtends(s: State, i: nat, st: Settings, m: int) returns (tr: seq<Label>)
    requires Good(s) && i < |s.attempts| && s.attempts[i].phase.Working?
    requires NextRun(s.attempts[i].claimed, st, s.now).Some?
    requires m <= s.attempts[i].claimed.key.occ
    ensures ClaimedBeyond(s, tr, s.attempts[i].claimed.key.chain, m)
    ensures Fixed(s, tr, s.attempts[i].claimed.key.chain.eventId, st)
  {
    assert SlotOk(s, i) && TracksOk(s, i);
    var k := s.attempts[i].claimed.key;
    var l := Settle(i, s.now, s.now, Ran(st, CallJob(None)));
    assert Successor(k) !in s.rows by { assert KeyOk(s.rows, k) && OrderOk(s.rows, Successor(k)); }
    var s1 := Apply(s, l);
    GoodStep(s, l);
    var rest := FollowExtends(s1, i, m);
    FixedIfUnread(s1, rest, k.chain.eventId, st);
    tr := [l] + rest;
    assert tr[1..] == rest;
  }

  /** A failing execution with attempts left is put back and claimed again. */
  lemma RetryReclaims(s: State, i: nat, st: Settings, m: int) returns (tr: seq<Label>)
    requires Good(s) && i < |s.attempts| && s.attempts[i].phase.Working?
    requires s.attempts[i].claimed.attempt + 1 < s.attempts[i].claimed.maxAttempts
    requires m < s.attempts[i].claimed.key.occ
    ensures ClaimedBeyond(s, tr, s.attempts[i].claimed.key.chain, m)
    ensures Fixed(s, tr, s.attempts[i].claimed.key.chain.eventId, st)
  {
    assert SlotOk(s, i) && TracksOk(s, i);
    var k := s.attempts[i].claimed.key;
    var l := Settle(i, s.now, s.now, Ran(st, CallJob(Some("down"))));
    var s1 := Apply(s, l);
    GoodStep(s, l);
    ClaimBreaksSilence(s, s1, k, m);
    var l2 := ClaimOnly(s1, k);
    tr := [l, l2];
    assert tr[1..] == [l2];
    assert Legal(s1, [l2]) by { assert [l2][1..] == []; }
    assert Exec(s1, [l2]) == Apply(s1, l2) by { assert [l2][1..] == []; }
    FixedIfUnread(s1, [l2], k.chain.eventId, st);
  }

  // ------------------------------------------------------------------- cancel

  /** A worker holds the chain in a way that can still lead to another claim. */
  ghost predicate BusySlot(s: State, c: Chain, i: int) {
    && 0 <= i < |s.attempts| && s.attempts[i].claimed.key.chain == c
    && (s.attempts[i].phase.Working? ||
        (s.attempts[i].phase.Following?
         && Successor(s.attempts[i].claimed.key) !in s.rows
         && NextRun(s.attempts[i].phase.run, s.attempts[i].phase.settings, s.now).Some?))
  }

  ghost predicate Busy(s: State, c: Chain) {
    exists i :: BusySlot(s, c, i)
  }

  ghost predicate Ended(s: State, c: Chain) {
    && Good(s) && Key(c, 1) in s.rows && !Busy(s, c)
    && forall k :: k in s.rows && k.chain == c ==> s.rows[k].status != Pending && s.rows[k].status != Running
  }

  lemma EndedSlots(s: State, l: Label, c: Chain, i: int)
    requires Ended(s, c) && Enabled(s, l) && !l.Retry?
    ensures !BusySlot(Apply(s, l), c, i)
    ensures |s.attempts| <= i < |Apply(s, l).attempts| ==> Apply(s, l).attempts[i].claimed.key.chain != c
  {
    var s' := Apply(s, l);
    assert !BusySlot(s, c, i);
    if |s.attempts| <= i < |s'.attempts| {
      assert KeyOk(s.rows, l.picked[i - |s.attempts|]);
    } else if 0 <= i < |s.attempts| && s.attempts[i].phase.Following? && s.attempts[i].claimed.key.chain == c {
      if Successor(s.attempts[i].claimed.key) !in s.rows {
        NextRunStaysNone(s.attempts[i].phase.run, s.attempts[i].phase.settings, s.now, l.at);
      }
    }
  }

  lemma EndedRow(s: State, l: Label, c: Chain, k: Key)
    requires Ended(s, c) && Enabled(s, l) && !l.Retry? && k in Apply(s, l).rows && k.chain == c
    ensures Apply(s, l).rows[k].status != Pending && Apply(s, l).rows[k].status != Running
  {
    if l.Settle? {
      assert SlotOk(s, l.slot) && !BusySlot(s, c, l.slot);
    }
    if l.Follow? {
      var a := s.attempts[l.slot];
      assert SlotOk(s, l.slot) && TracksOk(s, l.slot) && !BusySlot(s, c, l.slot);
      if a.claimed.key.chain == c && Successor(a.claimed.key) !in s.rows {
        NextRunStaysNone(a.phase.run, a.phase.settings, s.now, l.at);
      }
    }
  }

  lemma EndedStep(s: State, l: Label, c: Chain)
    requires Ended(s, c) && Enabled(s, l) && !l.Retry?
    ensures Ended(Apply(s, l), c)
    ensures Silent(s, Apply(s, l), c, 0)
  {
    GoodStep(s, l);
    forall i ensures !BusySlot(Apply(s, l), c, i) { EndedSlots(s, l, c, i); }
    forall k | k in Apply(s, l).rows && k.chain == c
      ensures Apply(s, l).rows[k].status != Pending && Apply(s, l).rows[k].status != Running
    {
      EndedRow(s, l, c, k);
    }
    forall i | |s.attempts| <= i < |Apply(s, l).attempts| ensures Apply(s, l).attempts[i].claimed.key.chain != c {
      EndedSlots(s, l, c, i);
    }
  }

  lemma {:induction false} EndedRun(s: State, tr: seq<Label>, c: Chain)
    requires Ended(s, c) && Legal(s, tr) && Automatic(tr)
    ensures Silent(s, Exec(s, tr), c, 0)
    decreases |tr|
  {
    if tr != [] {
      EndedStep(s, tr[0], c);
      EndedRun(Apply(s, tr[0]), tr[1..], c);
      AttemptsKept(Apply(s, tr[0]), tr[1..]);
    }
  }

  lemma CancelledEnds(s: State, key: Key, at: int)
    requires Good(s) && Enabled(s, Cancel(key, at)) && !Busy(Apply(s, Cancel(key, at)), key.chain)
    ensures Ended(Apply(s, Cancel(key, at)), key.chain)
  {
    var s1 := Apply(s, Cancel(key, at));
    var c := key.chain;
    GoodStep(s, Cancel(key, at));
    assert KeyOk(s.rows, key);
    DownClosed(s.rows, c, 1, key.occ);
    forall k | k in s1.rows && k.chain == c
      ensures s1.rows[k].status != Pending && s1.rows[k].status != Running
    {
      assert KeyOk(s.rows, k);
      if k.occ < key.occ {
        EarlierSucceeded(s.rows, c, k.occ, key.occ);
      }
      if s1.rows[k].status == Running {
        var i :| Works(s1.attempts, i, k);
        assert BusySlot(s1, c, i);
      }
    }
  }

  lemma BusyExtends(s: State, c: Chain) returns (tr: seq<Label>)
    requires Good(s) && Busy(s, c)
    ensures ClaimedBeyond(s, tr, c, 0)
  {
    var i :| BusySlot(s, c, i);
    assert SlotOk(s, i);
    assert KeyOk(s.rows, s.attempts[i].claimed.key);
    if s.attempts[i].phase.Working? {
      tr := WorkExtends(s, i, Settings(Recurring, Some(1), None, None, false), 0);
    } else {
      tr := FollowExtends(s, i, 0);
    }
  }

  /** Cancelling a run ends its chain for good exactly when no worker holds the chain at that moment. The
      events may be edited at any time; only manual Retry is excluded. */
  lemma CancelEndsChainIff(s: State, key: Key, at: int)
    requires Good(s) && Enabled(s, Cancel(key, at))
    ensures var s1 := Apply(s, Cancel(key, at));
            (exists tr :: ClaimedBeyond(s1, tr, key.chain, 0)) <==> Busy(s1, key.chain)
  {
    var s1 := Apply(s, Cancel(key, at));
    GoodStep(s, Cancel(key, at));
    if Busy(s1, key.chain) {
      var tr := BusyExtends(s1, key.chain);
    } else {
      CancelledEnds(s, key, at);
      forall tr | Legal(s1, tr) && Automatic(tr) ensures !ClaimedBeyond(s1, tr, key.chain, 0) {
        EndedRun(s1, tr, key.chain);
      }
    }
  }

  /** In particular a Cancel that hits the chain's pending run always ends the chain. */
  lemma CancelOfPendingRunEndsChain(s: State, key: Key, at: int, tr: seq<Label>)
    requires Good(s) && Enabled(s, Cancel(key, at))
    requires exists n :: key.occ <= n && Key(key.chain, n) in s.rows && s.rows[Key(key.chain, n)].status == Pending
    requires Legal(Apply(s, Cancel(key, at)), tr) && Automatic(tr)
    ensures Silent(Apply(s, Cancel(key, at)), Exec(Apply(s, Cancel(key, at)), tr), key.chain, 0)
  {
    var s1 := Apply(s, Cancel(key, at));
    var c := key.chain;
    var n :| key.occ <= n && Key(c, n) in s.rows && s.rows[Key(c, n)].status == Pending;
    assert KeyOk(s.rows, key);
    forall i ensures !BusySlot(s1, c, i) {
      if 0 <= i < |s.attempts| && s.attempts[i].claimed.key.chain == c && !s.attempts[i].phase.Done? {
        assert SlotOk(s, i) && TracksOk(s, i);
        var k := s.attempts[i].claimed.key;
        assert KeyOk(s.rows, k);
        if n < k.occ {
          EarlierSucceeded(s.rows, c, n, k.occ);
        } else if k.occ < n {
          EarlierSucceeded(s.rows, c, k.occ, n);
          DownClosed(s.rows, c, k.occ + 1, n);
        }
      }
    }
    CancelledEnds(s, key, at);
    EndedRun(s1, tr, c);
  }

  // ---------------------------------------------------------------------- ack

  ghost predicate SlotsFixed(s: State, c: Chain, st: Settings) {
    forall i :: 0 <= i < |s.attempts| && s.attempts[i].phase.Following? && s.attempts[i].claimed.key.chain == c ==>
      s.attempts[i].phase.settings == st
  }

  ghost predicate FixedBeyond(s: State, tr: seq<Label>, c: Chain, m: int, st: Settings) {
    ClaimedBeyond(s, tr, c, m) && Fixed(s, tr, c.eventId, st)
  }

  /** A worker that can take chain c past occurrence m: it executes a later run that has attempts left, or
      it holds, unacknowledged in its own copy, a run the settings let it follow up. */
  ghost predicate OutrunSlot(s: State, c: Chain, m: int, st: Settings, i: int) {
    && 0 <= i < |s.attempts| && s.attempts[i].claimed.key.chain == c
    && match s.attempts[i].phase
       case Working =>
         var run := s.attempts[i].claimed;
         (m < run.key.occ && run.attempt + 1 < run.maxAttempts) || NextRun(run, st, s.now).Some?
       case Following(run, settings) =>
         Successor(s.attempts[i].claimed.key) !in s.rows && NextRun(run, settings, s.now).Some?
       case Done => false
  }

  ghost predicate CanOutrun(s: State, c: Chain, m: int, st: Settings) {
    exists i :: OutrunSlot(s, c, m, st, i)
  }

  ghost predicate StoppedRowOk(s: State, c: Chain, m: int, st: Settings, k: Key) {
    k in s.rows && k.chain == c && s.rows[k].status == Pending ==>
      k.occ <= m && NextRun(s.rows[k], st, s.now).None?
  }

  ghost predicate Outpaced(s: State, c: Chain, m: int, st: Settings) {
    && Good(s) && SlotsFixed(s, c, st) && 0 <= m && Key(c, Max(1, m)) in s.rows
    && (forall i :: !OutrunSlot(s, c, m, st, i))
    && (forall k :: StoppedRowOk(s, c, m, st, k))
  }

  lemma OutpacedRows(s: State, l: Label, c: Chain, m: int, st: Settings, k: Key)
    requires Outpaced(s, c, m, st) && Enabled(s, l) && !l.Retry? && LabelFixed(s, l, c.eventId, st)
    ensures StoppedRowOk(Apply(s, l), c, m, st, k)
  {
    var s' := Apply(s, l);
    assert StoppedRowOk(s, c, m, st, k);
    assert KeyOk(s.rows, k);
    DownClosed(s.rows, c, 1, Max(1, m));
    if l.Settle? || l.Follow? {
      assert SlotOk(s, l.slot) && TracksOk(s, l.slot) && !OutrunSlot(s, c, m, st, l.slot);
    }
    if k in s.rows && k.chain == c && s'.rows[k].status == Pending {
      if s.rows[k].status == Pending && NextRun(s.rows[k], st, s.now).None? {
        NextRunStaysNone(s.rows[k], st, s.now, l.at);
      }
      if l.Settle? && s.attempts[l.slot].claimed.key == k {
        NextRunStaysNone(s.attempts[l.slot].claimed, st, s.now, l.at);
      }
    }
    if l.Follow? && s.attempts[l.slot].claimed.key.chain == c && Successor(s.attempts[l.slot].claimed.key) !in s.rows {
      NextRunStaysNone(s.attempts[l.slot].phase.run, st, s.now, l.at);
    }
  }

  lemma OutpacedSlots(s: State, l: Label, c: Chain, m: int, st: Settings, i: int)
    requires Outpaced(s, c, m, st) && Enabled(s, l) && !l.Retry? && LabelFixed(s, l, c.eventId, st)
    ensures !OutrunSlot(Apply(s, l), c, m, st, i)
    ensures |s.attempts| <= i < |Apply(s, l).attempts| ==>
              !(Apply(s, l).attempts[i].claimed.key.chain == c && m < Apply(s, l).attempts[i].claimed.key.occ)
  {
    var s' := Apply(s, l);
    assert !OutrunSlot(s, c, m, st, i);
    if |s.attempts| <= i < |s'.attempts| {
      var k := l.picked[i - |s.attempts|];
      assert KeyOk(s.rows, k) && StoppedRowOk(s, c, m, st, k);
      if k.chain == c {
        NextRunStaysNone(s.rows[k], st, s.now, l.at);
      }
    } else if 0 <= i < |s.attempts| && s.attempts[i].claimed.key.chain == c {
      assert SlotOk(s, i) && TracksOk(s, i);
      if s.attempts[i].phase.Working? {
        NextRunStaysNone(s.attempts[i].claimed, st, s.now, l.at);
      } else if s.attempts[i].phase.Following? && Successor(s.attempts[i].claimed.key) !in s.rows {
        NextRunStaysNone(s.attempts[i].phase.run, st, s.now, l.at);
      }
    }
  }

  lemma OutpacedStep(s: State, l: Label, c: Chain, m: int, st: Settings)
    requires Outpaced(s, c, m, st) && Enabled(s, l) && !l.Retry? && LabelFixed(s, l, c.eventId, st)
    ensures Outpaced(Apply(s, l), c, m, st)
    ensures Silent(s, Apply(s, l), c, m)
  {
    GoodStep(s, l);
    forall k ensures StoppedRowOk(Apply(s, l), c, m, st, k) { OutpacedRows(s, l, c, m, st, k); }
    forall i ensures !OutrunSlot(Apply(s, l), c, m, st, i) { OutpacedSlots(s, l, c, m, st, i); }
    forall i | |s.attempts| <= i < |Apply(s, l).attempts|
      ensures !(Apply(s, l).attempts[i].claimed.key.chain == c && m < Apply(s, l).attempts[i].claimed.key.occ)
    {
      OutpacedSlots(s, l, c, m, st, i);
    }
  }

  lemma {:induction false} OutpacedRun(s: State, tr: seq<Label>, c: Chain, m: int, st: Settings)
    requires Outpaced(s, c, m, st)
    requires Legal(s, tr) && Automatic(tr) && Fixed(s, tr, c.eventId, st)
    ensures Silent(s, Exec(s, tr), c, m)
    decreases |tr|
  {
    if tr != [] {
      OutpacedStep(s, tr[0], c, m, st);
      OutpacedRun(Apply(s, tr[0]), tr[1..], c, m, st);
      AttemptsKept(Apply(s, tr[0]), tr[1..]);
    }
  }

  lemma AckedOutpaces(s: State, key: Key, at: int, st: Settings)
    requires Good(s) && st.stopOnAck && Enabled(s, Ack(key, at, Some(st))) && SlotsFixed(s, key.chain, st)
    requires !CanOutrun(Apply(s, Ack(key, at, Some(st))), key.chain, key.occ, st)
    ensures Outpaced(Apply(s, Ack(key, at, Some(st))), key.chain, key.occ, st)
  {
    var s1 := Apply(s, Ack(key, at, Some(st)));
    var c := key.chain;
    GoodStep(s, Ack(key, at, Some(st)));
    assert KeyOk(s.rows, key);
    forall k ensures StoppedRowOk(s1, c, key.occ, st, k) {
      assert KeyOk(s.rows, k);
      if k in s.rows && k.chain == c && k.occ < key.occ {
        EarlierSucceeded(s.rows, c, k.occ, key.occ);
      }
    }
  }

  lemma OutrunExtends(s: State, c: Chain, m: int, st: Settings) returns (tr: seq<Label>)
    requires Good(s) && CanOutrun(s, c, m, st) && SlotsFixed(s, c, st)
    requires 0 <= m && (1 <= m ==> Key(c, m) in s.rows)
    ensures FixedBeyond(s, tr, c, m, st)
  {
    var i :| OutrunSlot(s, c, m, st, i);
    assert SlotOk(s, i) && TracksOk(s, i);
    var k := s.attempts[i].claimed.key;
    assert KeyOk(s.rows, k);
    if k.occ < m {
      EarlierSucceeded(s.rows, c, k.occ, m);
      DownClosed(s.rows, c, k.occ + 1, m);
    }
    if s.attempts[i].phase.Following? {
      tr := FollowExtends(s, i, m);
      FixedIfUnread(s, tr, c.eventId, st);
    } else if NextRun(s.attempts[i].claimed, st, s.now).Some? {
      tr := WorkExtends(s, i, st, m);
    } else {
      tr := RetryReclaims(s, i, st, m);
    }
  }

  /** With the event's settings fixed, acknowledging run m of a stop_on_ack event means no later occurrence
      is ever started again, exactly when no worker is in a position to outrun the acknowledgement. */
  lemma AckStopsChainIff(s: State, key: Key, at: int, st: Settings)
    requires Good(s) && st.stopOnAck && Enabled(s, Ack(key, at, Some(st))) && SlotsFixed(s, key.chain, st)
    ensures var s1 := Apply(s, Ack(key, at, Some(st)));
            (exists tr :: FixedBeyond(s1, tr, key.chain, key.occ, st)) <==> CanOutrun(s1, key.chain, key.occ, st)
  {
    var s1 := Apply(s, Ack(key, at, Some(st)));
    GoodStep(s, Ack(key, at, Some(st)));
    assert KeyOk(s.rows, key);
    if CanOutrun(s1, key.chain, key.occ, st) {
      var tr := OutrunExtends(s1, key.chain, key.occ, st);
    } else {
      AckedOutpaces(s, key, at, st);
      forall tr | Legal(s1, tr) && Automatic(tr) && Fixed(s1, tr, key.chain.eventId, st)
        ensures !FixedBeyond(s1, tr, key.chain, key.occ, st)
      {
        OutpacedRun(s1, tr, key.chain, key.occ, st);
      }
    }
  }

  /** With the event's settings fixed, cancelling a run ends its chain for good exactly when no worker is in a
      position to take the chain any further: a run on its last attempt that may not be followed up is no
      obstacle. */
  lemma CancelEndsFixedChainIff(s: State, key: Key, at: int, st: Settings)
    requires Good(s) && Enabled(s, Cancel(key, at)) && SlotsFixed(s, key.chain, st)
    ensures var s1 := Apply(s, Cancel(key, at));
            (exists tr :: FixedBeyond(s1, tr, key.chain, 0, st)) <==> CanOutrun(s1, key.chain, 0, st)
  {
    var s1 := Apply(s, Cancel(key, at));
    GoodStep(s, Cancel(key, at));
    if CanOutrun(s1, key.chain, 0, st) {
      var tr := OutrunExtends(s1, key.chain, 0, st);
    } else {
      CancelledOutpaces(s, key, at, st);
      forall tr | Legal(s1, tr) && Automatic(tr) && Fixed(s1, tr, key.chain.eventId, st)
        ensures !FixedBeyond(s1, tr, key.chain, 0, st)
      {
        OutpacedRun(s1, tr, key.chain, 0, st);
      }
    }
  }

  lemma CancelledOutpaces(s: State, key: Key, at: int, st: Settings)
    requires Good(s) && Enabled(s, Cancel(key, at)) && SlotsFixed(s, key.chain, st)
    requires !CanOutrun(Apply(s, Cancel(key, at)), key.chain, 0, st)
    ensures Outpaced(Apply(s, Cancel(key, at)), key.chain, 0, st)
  {
    var s1 := Apply(s, Cancel(key, at));
    var c := key.chain;
    GoodStep(s, Cancel(key, at));
    assert KeyOk(s.rows, key);
    DownClosed(s.rows, c, 1, key.occ);
    forall k ensures StoppedRowOk(s1, c, 0, st, k) {
      assert KeyOk(s.rows, k);
      if k in s.rows && k.chain == c && k.occ < key.occ {
        EarlierSucceeded(s.rows, c, k.occ, key.occ);
      }
    }
  }

  /** What the two user actions leave alone: settled and running rows, other chains, earlier occurrences, and
      the acknowledged run itself. Only a pending run further on can change status, and it becomes cancelled. */
  lemma OnlyLaterPendingRunsStop(s: State, l: Label, k: Key)
    requires Contiguous(s.rows) && Enabled(s, l) && (l.Cancel? || l.Ack?)
    ensures Apply(s, l).rows.Keys == s.rows.Keys && Apply(s, l).attempts == s.attempts
    ensures k in s.rows && Apply(s, l).rows[k].status != s.rows[k].status ==>
              && s.rows[k].status == Pending && Apply(s, l).rows[k].status == Cancelled && k.chain == l.key.chain
              && (if l.Cancel? then l.key.occ <= k.occ
                  else l.key.occ < k.occ && l.event.Some? && l.event.value.stopOnAck)
  {
    assert KeyOk(s.rows, k) && KeyOk(s.rows, l.key);
  }

  // ----------------------------------------- a concrete run that is not stopped

  const SampleChain := Chain("m", "e")
  const SampleSettings := Settings(Recurring, Some(60), None, None, true)

  /** One run has been scheduled and a worker has just claimed it. */
  lemma SampleInFlight() returns (s: State)
    ensures Good(s) && s.now == 0 && |s.attempts| == 1
    ensures s.attempts[0] == Attempt(Fresh(Key(SampleChain, 1), 0, 3), 0, Working, [], None)
    ensures Key(SampleChain, 1) in s.rows
  {
    var k := Key(SampleChain, 1);
    var l1 := Schedule(SampleChain, 0, 3, 0);
    var s1 := Apply(Empty(0), l1);
    GoodStep(Empty(0), l1);
    ClaimBreaksSilence(s1, s1, k, 0);
    s := Apply(s1, ClaimOnly(s1, k));
    GoodStep(s1, ClaimOnly(s1, k));
  }

  /** The documented promise that a repeat chain cannot survive a cancel, and that an acknowledgement ends
      it, both fail on this trace: the first run is claimed, then cancelled or acknowledged while its
      handler is in flight, and occurrence 2 is still written and started. */
  lemma BusyChainSurvives(l: Label) returns (s: State, tr: seq<Label>)
    requires l == Cancel(Key(SampleChain, 1), 0) || l == Ack(Key(SampleChain, 1), 0, Some(SampleSettings))
    ensures Good(s) && Enabled(s, l)
    ensures FixedBeyond(Apply(s, l), tr, SampleChain, 1, SampleSettings)
  {
    s := SampleInFlight();
    GoodStep(s, l);
    assert OutrunSlot(Apply(s, l), SampleChain, 1, SampleSettings, 0);
    tr := OutrunExtends(Apply(s, l), SampleChain, 1, SampleSettings);
  }
}
