/** No due run starves: the claim order bounds how many ticks a run can be passed over. */
module Fairness {
  import opened Runs
  import opened Queue
  import opened Chains

  ghost predicate Waits(s: State, x: Key) {
    x in s.rows && s.rows[x].status == Pending
  }

  /** The other pending runs scheduled no later than x. */
  ghost function Ahead(s: State, x: Key): set<Key>
    requires Waits(s, x)
  {
    set k | k in s.rows && k != x && s.rows[k].status == Pending && s.rows[k].scheduledAt <= s.rows[x].scheduledAt
  }

  /** A tick takes at least `limit` rows if there are that many and x is not locked by somebody else; a
      retried run has a max_attempts for which the backoff does not overflow. */
  ghost predicate FairLabel(s: State, l: Label, x: Key, limit: nat)
    requires Enabled(s, l)
  {
    && (l.Claim? ==> limit <= l.limit && x !in l.locked)
    && (l.Settle? ==> s.attempts[l.slot].claimed.maxAttempts <= 29)
  }

  /** x is still waiting after every step of the trace. */
  ghost predicate KeptWaiting(s: State, tr: seq<Label>, x: Key, limit: nat)
    requires Legal(s, tr)
    decreases |tr|
  {
    Waits(s, x) &&
    (tr == [] || (FairLabel(s, tr[0], x, limit) && KeptWaiting(Apply(s, tr[0]), tr[1..], x, limit)))
  }

  ghost function Ticks(tr: seq<Label>): nat {
    if tr == [] then 0 else (if tr[0].Claim? then 1 else 0) + Ticks(tr[1..])
  }

  lemma SettledLater(run: Run, started: int, at: int, outcome: Outcome)
    requires run.maxAttempts <= 29 && Settled(run, started, at, outcome).status == Pending
    ensures at <= Settled(run, started, at, outcome).scheduledAt
  {
    BackoffExactIff(run.attempt + 1);
  }

  /** Whatever becomes pending after x was due is scheduled behind x. */
  lemma NobodyCutsIn(s: State, l: Label, x: Key, limit: nat, k: Key)
    requires Shape(s) && Enabled(s, l) && FairLabel(s, l, x, limit)
    requires Waits(s, x) && Waits(Apply(s, l), x) && s.rows[x].scheduledAt < s.now
    requires k in Ahead(Apply(s, l), x)
    ensures Apply(s, l).rows[x].scheduledAt == s.rows[x].scheduledAt
    ensures k in Ahead(s, x)
    ensures l.Claim? ==> k !in l.picked
  {
    if l.Settle? {
      assert SlotOk(s, l.slot);
      var a := s.attempts[l.slot].claimed;
      if k == a.key && Settled(a, l.started, l.at, l.outcome).status == Pending {
        SettledLater(a, l.started, l.at, l.outcome);
      }
    }
    if l.Follow? { assert SlotOk(s, l.slot); }
  }

  ghost function Elements(picked: seq<Key>): set<Key> {
    set k | k in picked
  }

  lemma {:induction false} DistinctSize(picked: seq<Key>)
    requires forall i, j :: 0 <= i < j < |picked| ==> picked[i] != picked[j]
    ensures |Elements(picked)| == |picked|
    decreases |picked|
  {
    if picked != [] {
      var n := |picked| - 1;
      DistinctSize(picked[..n]);
      assert Elements(picked) == Elements(picked[..n]) + {picked[n]};
    }
  }

  lemma SubsetSize(a: set<Key>, b: set<Key>)
    requires a <= b
    ensures |a| <= |b| && |b - a| == |b| - |a|
    decreases b
  {
    assert (b - a) + a == b;
  }

  lemma AheadShrinks(s: State, l: Label, x: Key, limit: nat)
    requires Shape(s) && Enabled(s, l) && FairLabel(s, l, x, limit)
    requires Waits(s, x) && Waits(Apply(s, l), x) && s.rows[x].scheduledAt < s.now
    ensures |Ahead(Apply(s, l), x)| + (if l.Claim? then limit else 0) <= |Ahead(s, x)|
  {
    var before, after := Ahead(s, x), Ahead(Apply(s, l), x);
    forall k | k in after ensures k in before && (l.Claim? ==> k !in l.picked) {
      NobodyCutsIn(s, l, x, limit, k);
    }
    if l.Claim? {
      assert x !in l.picked;
      assert |l.picked| == l.limit;
      DistinctSize(l.picked);
      assert Elements(l.picked) <= before;
      assert after <= before - Elements(l.picked);
      SubsetSize(Elements(l.picked), before);
      SubsetSize(after, before - Elements(l.picked));
    } else {
      SubsetSize(after, before);
    }
  }

  lemma ScheduleKept(s: State, l: Label, x: Key)
    requires Shape(s) && Enabled(s, l) && Waits(s, x) && Waits(Apply(s, l), x)
    ensures Apply(s, l).rows[x].scheduledAt == s.rows[x].scheduledAt
  {
    if l.Settle? { assert SlotOk(s, l.slot); }
  }

  /** A run that is past its time, with r other pending runs scheduled no later, cannot be left waiting
      through more than r / limit ticks: it is claimed within ceil((r + 1) / limit), whatever schedules,
      retries, cancels and acknowledgements of other runs come in between. */
  lemma {:induction false} ClaimedWithin(s: State, tr: seq<Label>, x: Key, limit: nat)
    requires Shape(s) && Legal(s, tr) && KeptWaiting(s, tr, x, limit)
    requires s.rows[x].scheduledAt < s.now
    ensures Ticks(tr) * limit <= |Ahead(s, x)|
    decreases |tr|
  {
    if tr != [] {
      var s1 := Apply(s, tr[0]);
      ShapeStep(s, tr[0]);
      ScheduleKept(s, tr[0], x);
      ClaimedWithin(s1, tr[1..], x, limit);
      AheadShrinks(s, tr[0], x, limit);
      OneTickMore(Ticks(tr[1..]), limit);
    }
  }

  lemma OneTickMore(ticks: nat, limit: nat)
    ensures (ticks + 1) * limit == ticks * limit + limit
  {
  }

  /** The only other way out of waiting is a user acting on that very chain. */
  lemma WaitingEndsByClaim(s: State, l: Label, x: Key)
    requires Shape(s) && Enabled(s, l) && Waits(s, x) && !Waits(Apply(s, l), x)
    ensures (l.Claim? && x in l.picked && Held(Apply(s, l), x))
            || ((l.Cancel? || l.Ack? || l.Retry?) && l.key.chain == x.chain)
  {
    assert KeyOk(s.rows, x);
    assert l.Settle? ==> SlotOk(s, l.slot);
    if l.Claim? && x in l.picked {
      var i :| 0 <= i < |l.picked| && l.picked[i] == x;
      assert Works(Apply(s, l).attempts, |s.attempts| + i, x);
    }
  }

  // ------------------------------------------- the claim query always has an answer

  ghost function DueUnlocked(rows: Rows, now: int, locked: set<Key>): set<Key> {
    set k | k in rows && Due(rows[k], now) && k !in locked
  }

  lemma {:induction false} OldestExists(rows: Rows, from: set<Key>) returns (first: Key)
    requires from != {} && from <= rows.Keys
    ensures first in from && forall k :: k in from ==> rows[first].scheduledAt <= rows[k].scheduledAt
    decreases |from|
  {
    first :| first in from;
    if from != {first} {
      var rest := from - {first};
      var other := OldestExists(rows, rest);
      assert forall k :: k in from ==> k == first || k in rest;
      if rows[other].scheduledAt < rows[first].scheduledAt {
        first := other;
      }
    }
  }

  /** Whatever is due and locked, some batch answers the claim query for any limit. */
  lemma {:induction false} ClaimExists(rows: Rows, now: int, limit: nat, locked: set<Key>) returns (picked: seq<Key>)
    ensures IsClaim(rows, now, limit, locked, picked)
    decreases limit
  {
    if limit == 0 {
      picked := [];
    } else {
      picked := ClaimExists(rows, now, limit - 1, locked);
      var rest := DueUnlocked(rows, now, locked) - Elements(picked);
      if rest != {} {
        var next := OldestExists(rows, rest);
        assert next in rest && next !in picked;
        var before := picked;
        picked := before + [next];
        forall k | k in rows && Due(rows[k], now) && k !in locked && k !in picked
          ensures |picked| == limit
                  && forall i :: 0 <= i < |picked| ==> rows[picked[i]].scheduledAt <= rows[k].scheduledAt
        {
          assert k !in before;
          assert k in rest;
        }
      } else {
        forall k | k in rows && Due(rows[k], now) && k !in locked ensures k in picked {
          assert k in DueUnlocked(rows, now, locked) && k !in rest;
        }
      }
    }
  }
}
