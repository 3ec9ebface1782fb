/** From a fetched message to scheduled work: insert-or-ignore on (watcher, message), then occurrence 1 for
    each enabled event of the watcher that won. */
module Sync {
  import opened Common
  import opened Runs
  import Queue

  datatype MatchKey = MatchKey(watcherId: string, messageId: string)

  datatype Event = Event(id: string, delaySeconds: nat)

  const MAX_ATTEMPTS := 3

  /** The primary key of watcher_events. */
  predicate DistinctEvents(events: seq<Event>) {
    forall i, j :: 0 <= i < j < |events| ==> events[i].id != events[j].id
  }

  function EventIds(events: seq<Event>): set<string> {
    set e | e in events :: e.id
  }

  function FirstKey(matchId: string, eventId: string): Key {
    Key(Chain(matchId, eventId), 1)
  }

  function FirstRun(matchId: string, event: Event, now: int): Run {
    Fresh(FirstKey(matchId, event.id), now + event.delaySeconds * 1000, MAX_ATTEMPTS)
  }

  // -------------------------------------------------------- overlapping syncs

  /** What a sync is doing: testing messages, about to read the events of a match it created, or writing
      their runs one by one. */
  datatype Phase = Scanning | Expanding(matchId: string, watcherId: string) | Writing(matchId: string, left: seq<Event>)

  datatype Worker = Worker(created: nat, phase: Phase)

  /** `expanded` remembers, for each match, the events that were enabled when its sync read them. */
  datatype State = State(
    matches: map<string, MatchKey>,
    rows: Rows,
    enabled: map<string, seq<Event>>,
    workers: seq<Worker>,
    expanded: map<string, seq<Event>>)

  datatype Label =
    | Begin
    | Record(w: nat, key: MatchKey, newId: string)
    | ReadEvents(w: nat)
    | WriteRun(w: nat, now: int)
    | EditEvents(watcherId: string, events: seq<Event>)
    | Dispatch(rows: Rows)

  /** Whatever the dispatcher and the users do to the queue, they add no first occurrence and delete no row. */
  ghost predicate QueueWork(rows: Rows, rows': Rows) {
    && (forall k :: k in rows ==> k in rows')
    && (forall k :: k in rows' && k !in rows ==> k.occ != 1)
  }

  /** Every step of the queue machine other than scheduling a first run is such work. */
  lemma QueueIsQueueWork(s: Queue.State, l: Queue.Label)
    requires Queue.Shape(s) && Queue.Enabled(s, l) && !l.Schedule?
    ensures QueueWork(s.rows, Queue.Apply(s, l).rows)
  {
    if l.Settle? || l.Follow? {
      assert Queue.SlotOk(s, l.slot);
    }
    if l.Follow? {
      assert Queue.KeyOk(s.rows, s.attempts[l.slot].claimed.key);
    }
  }

  /** The unique (watcher, message) index, looked up by key. */
  predicate Recorded(matches: map<string, MatchKey>, key: MatchKey) {
    exists id :: id in matches && matches[id] == key
  }

  ghost predicate Enabled(s: State, l: Label) {
    match l
    case Begin => true
    case Record(w, key, newId) =>
      w < |s.workers| && s.workers[w].phase.Scanning? && newId !in s.matches
    case ReadEvents(w) => w < |s.workers| && s.workers[w].phase.Expanding?
    case WriteRun(w, _) => w < |s.workers| && s.workers[w].phase.Writing? && s.workers[w].phase.left != []
    case EditEvents(_, events) => DistinctEvents(events)
    case Dispatch(rows) => QueueWork(s.rows, rows)
  }

  function EnabledFor(enabled: map<string, seq<Event>>, watcherId: string): seq<Event> {
    if watcherId in enabled then enabled[watcherId] else []
  }

  function NextPhase(matchId: string, left: seq<Event>): Phase {
    if left == [] then Scanning else Writing(matchId, left)
  }

  ghost function Apply(s: State, l: Label): State
    requires Enabled(s, l)
  {
    match l
    case Begin => s.(workers := s.workers + [Worker(0, Scanning)])
    case Record(w, key, newId) =>
      if Recorded(s.matches, key) then s
      else s.(matches := s.matches[newId := key],
              workers := s.workers[w := Worker(s.workers[w].created + 1, Expanding(newId, key.watcherId))])
    case ReadEvents(w) =>
      var p := s.workers[w].phase;
      var events := EnabledFor(s.enabled, p.watcherId);
      s.(expanded := s.expanded[p.matchId := events],
         workers := s.workers[w := s.workers[w].(phase := NextPhase(p.matchId, events))])
    case WriteRun(w, now) =>
      var p := s.workers[w].phase;
      s.(rows := Inserted(s.rows, FirstRun(p.matchId, p.left[0], now)),
         workers := s.workers[w := s.workers[w].(phase := NextPhase(p.matchId, p.left[1..]))])
    case EditEvents(watcherId, events) => s.(enabled := s.enabled[watcherId := events])
    case Dispatch(rows) => s.(rows := rows)
  }

  /** A first run is pending for occurrence 1, due after the event's own delay, with three attempts. */
  lemma FirstRunMeans(matchId: string, event: Event, now: int)
    ensures FirstRun(matchId, event, now)
            == Run(Key(Chain(matchId, event.id), 1), Pending, now + 1000 * event.delaySeconds, None, None, 0, 3,
                   None, None, None)
  {
  }

  /** Expanding a match reads the events enabled for its own watcher at that moment. */
  lemma ReadsEnabled(s: State, w: nat, key: MatchKey, newId: string)
    requires Enabled(s, Record(w, key, newId)) && !Recorded(s.matches, key)
    ensures var s1 := Apply(s, Record(w, key, newId));
            && s1.matches == s.matches[newId := key] && Enabled(s1, ReadEvents(w))
            && newId in Apply(s1, ReadEvents(w)).expanded
            && Apply(s1, ReadEvents(w)).expanded[newId]
               == if key.watcherId in s.enabled then s.enabled[key.watcherId] else []
  {
  }

  ghost predicate Legal(s: State, tr: seq<Label>)
    decreases |tr|
  {
    tr == [] || (Enabled(s, tr[0]) && Legal(Apply(s, tr[0]), tr[1..]))
  }

  ghost function Exec(s: State, tr: seq<Label>): State
    requires Legal(s, tr)
    decreases |tr|
  {
    if tr == [] then s else Exec(Apply(s, tr[0]), tr[1..])
  }

  function Start(enabled: map<string, seq<Event>>): State {
    State(map[], map[], enabled, [], map[])
  }

  // --------------------------------------------------------------- invariants

  ghost function TotalCreated(workers: seq<Worker>): nat {
    if workers == [] then 0 else TotalCreated(workers[..|workers| - 1]) + workers[|workers| - 1].created
  }

  lemma {:induction false} TotalCreatedUpdate(workers: seq<Worker>, i: nat, worker: Worker)
    requires i < |workers|
    ensures TotalCreated(workers[i := worker]) == TotalCreated(workers) - workers[i].created + worker.created
    decreases |workers|
  {
    var n := |workers| - 1;
    if i < n {
      TotalCreatedUpdate(workers[..n], i, worker);
      assert workers[i := worker][..n] == workers[..n][i := worker];
    } else {
      assert workers[i := worker][..n] == workers[..n];
    }
  }

  ghost predicate Works(s: State, i: int, matchId: string) {
    0 <= i < |s.workers| && !s.workers[i].phase.Scanning? && s.workers[i].phase.matchId == matchId
  }

  ghost predicate IsLeft(s: State, i: int, matchId: string, eventId: string) {
    Works(s, i, matchId) && s.workers[i].phase.Writing? && eventId in EventIds(s.workers[i].phase.left)
  }

  ghost predicate WorkerOk(s: State, i: int)
    requires 0 <= i < |s.workers|
  {
    match s.workers[i].phase
    case Scanning => true
    case Expanding(matchId, _) => matchId in s.matches && matchId !in s.expanded
    case Writing(matchId, left) => matchId in s.expanded && DistinctEvents(left)
  }

  /** A first occurrence exists exactly for the events read for that match, less those still to be written. */
  ghost predicate FirstOk(s: State, matchId: string, eventId: string) {
    FirstKey(matchId, eventId) in s.rows <==>
      matchId in s.expanded && eventId in EventIds(s.expanded[matchId]) && forall i :: !IsLeft(s, i, matchId, eventId)
  }

  ghost predicate LeftOk(s: State, i: int, matchId: string, eventId: string) {
    IsLeft(s, i, matchId, eventId) ==> matchId in s.expanded && eventId in EventIds(s.expanded[matchId])
  }

  ghost predicate Expands(s: State, i: int, matchId: string) {
    Works(s, i, matchId) && s.workers[i].phase.Expanding?
  }

  ghost predicate MatchOk(s: State, matchId: string) {
    && (matchId in s.expanded ==> matchId in s.matches)
    && (matchId in s.matches && matchId !in s.expanded ==> exists i :: Expands(s, i, matchId))
  }

  ghost predicate Unique(matches: map<string, MatchKey>) {
    forall i, j :: i in matches && j in matches && matches[i] == matches[j] ==> i == j
  }

  ghost predicate Workers(s: State) {
    && (forall w :: w in s.enabled ==> DistinctEvents(s.enabled[w]))
    && (forall i :: 0 <= i < |s.workers| ==> WorkerOk(s, i))
    && (forall i, j, m :: Works(s, i, m) && Works(s, j, m) ==> i == j)
  }

  ghost predicate Inv(s: State) {
    && Workers(s)
    && (forall m, e :: FirstOk(s, m, e))
    && (forall i, m, e :: LeftOk(s, i, m, e))
    && (forall m :: MatchOk(s, m))
    && Unique(s.matches)
    && TotalCreated(s.workers) == |s.matches|
  }

  lemma WorkerOkStep(s: State, l: Label, i: int)
    requires Workers(s) && Enabled(s, l) && 0 <= i < |Apply(s, l).workers|
    requires l.Record? ==> MatchOk(s, l.newId)
    ensures WorkerOk(Apply(s, l), i)
  {
    if i < |s.workers| {
      assert WorkerOk(s, i);
      if l.ReadEvents? && i != l.w && s.workers[i].phase.Expanding? {
        assert Works(s, i, s.workers[i].phase.matchId) && Works(s, l.w, s.workers[l.w].phase.matchId);
      }
      if l.WriteRun? && i == l.w {
        assert DistinctEvents(s.workers[i].phase.left[1..]);
      }
    }
  }

  lemma OneWorkerStep(s: State, l: Label, i: int, j: int, m: string)
    requires Workers(s) && Enabled(s, l) && (m in s.expanded ==> m in s.matches)
    requires Works(Apply(s, l), i, m) && Works(Apply(s, l), j, m)
    ensures i == j
  {
    if i < |s.workers| { assert WorkerOk(s, i); }
    if j < |s.workers| { assert WorkerOk(s, j); }
    assert !(l.Record? && i == l.w) ==> Works(s, i, m);
    assert !(l.Record? && j == l.w) ==> Works(s, j, m);
  }

  lemma WorkersStep(s: State, l: Label)
    requires Inv(s) && Enabled(s, l)
    ensures Workers(Apply(s, l))
  {
    assert l.Record? ==> MatchOk(s, l.newId);
    forall i | 0 <= i < |Apply(s, l).workers| ensures WorkerOk(Apply(s, l), i) { WorkerOkStep(s, l, i); }
    forall i, j, m | Works(Apply(s, l), i, m) && Works(Apply(s, l), j, m) ensures i == j {
      assert MatchOk(s, m);
      OneWorkerStep(s, l, i, j, m);
    }
  }

  lemma FewerIds(left: seq<Event>)
    requires left != []
    ensures EventIds(left) == EventIds(left[1..]) + {left[0].id}
    ensures DistinctEvents(left) ==> left[0].id !in EventIds(left[1..])
  {
    assert forall x :: x in left <==> x == left[0] || x in left[1..];
  }

  lemma LeftStep(s: State, l: Label, i: int, m: string, e: string)
    requires Workers(s) && LeftOk(s, i, m, e) && Enabled(s, l)
    ensures LeftOk(Apply(s, l), i, m, e)
  {
    if l.WriteRun? && i == l.w {
      FewerIds(s.workers[i].phase.left);
    }
    if l.ReadEvents? {
      LeftAfterRead(s, l, i, m, e);
      assert i != l.w && IsLeft(s, i, m, e) ==> !Works(s, l.w, m);
    }
  }

  lemma LeftAfterRead(s: State, l: Label, i: int, m: string, e: string)
    requires Workers(s) && Enabled(s, l) && l.ReadEvents?
    ensures var p := s.workers[l.w].phase;
            IsLeft(Apply(s, l), i, m, e) <==>
              if i == l.w then m == p.matchId && e in EventIds(EnabledFor(s.enabled, p.watcherId))
              else IsLeft(s, i, m, e)
  {
  }

  lemma LeftAfterWrite(s: State, l: Label, i: int, m: string, e: string)
    requires Workers(s) && Enabled(s, l) && l.WriteRun?
    ensures var p := s.workers[l.w].phase;
            IsLeft(Apply(s, l), i, m, e) <==> IsLeft(s, i, m, e) && !(m == p.matchId && e == p.left[0].id)
    ensures IsLeft(s, l.w, s.workers[l.w].phase.matchId, s.workers[l.w].phase.left[0].id)
  {
    var p := s.workers[l.w].phase;
    assert WorkerOk(s, l.w) && Works(s, l.w, p.matchId);
    FewerIds(p.left);
    if Works(s, i, m) && m == p.matchId {
      assert i == l.w;
    }
  }

  lemma LeftOtherwise(s: State, l: Label, i: int, m: string, e: string)
    requires Workers(s) && Enabled(s, l) && !l.ReadEvents? && !l.WriteRun?
    ensures IsLeft(Apply(s, l), i, m, e) <==> IsLeft(s, i, m, e)
  {
  }

  lemma FirstStep(s: State, l: Label, m: string, e: string)
    requires Workers(s) && FirstOk(s, m, e) && Enabled(s, l)
    requires l.WriteRun? ==> LeftOk(s, l.w, s.workers[l.w].phase.matchId, s.workers[l.w].phase.left[0].id)
    ensures FirstOk(Apply(s, l), m, e)
  {
    var t := Apply(s, l);
    match l
    case ReadEvents(w) =>
      forall i ensures IsLeft(t, i, m, e) <==>
                         if i == w then m == s.workers[w].phase.matchId
                                        && e in EventIds(EnabledFor(s.enabled, s.workers[w].phase.watcherId))
                         else IsLeft(s, i, m, e)
      {
        LeftAfterRead(s, l, i, m, e);
      }
      assert WorkerOk(s, w) && !IsLeft(s, w, m, e);
    case WriteRun(w, _) =>
      var p := s.workers[w].phase;
      forall i ensures IsLeft(t, i, m, e) <==> IsLeft(s, i, m, e) && !(m == p.matchId && e == p.left[0].id) {
        LeftAfterWrite(s, l, i, m, e);
      }
      LeftAfterWrite(s, l, w, m, e);
    case _ =>
      forall i ensures IsLeft(t, i, m, e) <==> IsLeft(s, i, m, e) {
        LeftOtherwise(s, l, i, m, e);
      }
  }

  lemma MatchStep(s: State, l: Label, m: string)
    requires Workers(s) && MatchOk(s, m) && Enabled(s, l)
    ensures MatchOk(Apply(s, l), m)
  {
    var t := Apply(s, l);
    if l.ReadEvents? || l.WriteRun? {
      assert WorkerOk(s, l.w);
    }
    if m in t.matches && m !in t.expanded {
      if m in s.matches {
        var i :| Expands(s, i, m);
        assert Expands(t, i, m);
      } else {
        assert Expands(t, l.w, m);
      }
    }
  }

  lemma CountStep(s: State, l: Label)
    requires Enabled(s, l) && TotalCreated(s.workers) == |s.matches|
    ensures TotalCreated(Apply(s, l).workers) == |Apply(s, l).matches|
  {
    var t := Apply(s, l);
    if l.Begin? {
      assert t.workers[..|s.workers|] == s.workers;
    } else if l.Record? || l.ReadEvents? || l.WriteRun? {
      if t.workers != s.workers {
        TotalCreatedUpdate(s.workers, l.w, t.workers[l.w]);
        assert t.workers == s.workers[l.w := t.workers[l.w]];
      }
    }
  }

  lemma InvStep(s: State, l: Label)
    requires Inv(s) && Enabled(s, l)
    ensures Inv(Apply(s, l))
  {
    WorkersStep(s, l);
    CountStep(s, l);
    forall m, e ensures FirstOk(Apply(s, l), m, e) {
      assert l.WriteRun? ==> LeftOk(s, l.w, s.workers[l.w].phase.matchId, s.workers[l.w].phase.left[0].id);
      assert FirstOk(s, m, e);
      FirstStep(s, l, m, e);
    }
    forall i, m, e ensures LeftOk(Apply(s, l), i, m, e) { assert LeftOk(s, i, m, e); LeftStep(s, l, i, m, e); }
    forall m ensures MatchOk(Apply(s, l), m) { assert MatchOk(s, m); MatchStep(s, l, m); }
  }

  ghost predicate Keeps(matches: map<string, MatchKey>, later: map<string, MatchKey>) {
    forall id :: id in matches ==> id in later && later[id] == matches[id]
  }

  lemma KeepsStep(s: State, l: Label)
    requires Enabled(s, l)
    ensures Keeps(s.matches, Apply(s, l).matches)
  {
  }

  lemma {:induction false} InvRun(s: State, tr: seq<Label>)
    requires Inv(s) && Legal(s, tr)
    ensures Inv(Exec(s, tr))
    ensures Keeps(s.matches, Exec(s, tr).matches)
    decreases |tr|
  {
    if tr != [] {
      InvStep(s, tr[0]);
      KeepsStep(s, tr[0]);
      InvRun(Apply(s, tr[0]), tr[1..]);
    }
  }

  ghost predicate ValidStart(enabled: map<string, seq<Event>>) {
    forall w :: w in enabled ==> DistinctEvents(enabled[w])
  }

  ghost predicate AllIdle(s: State) {
    forall i :: 0 <= i < |s.workers| ==> s.workers[i].phase.Scanning?
  }

  /** Under any overlap of polls and manual syncs, and whatever the dispatcher does meanwhile: a (watcher,
      message) pair is recorded at most once, matches_created over all syncs adds up to the rows, and once the
      syncs are idle every match has a first run for exactly the events enabled when it was expanded. */
  lemma RecordedOnceExpandedOnce(enabled: map<string, seq<Event>>, tr: seq<Label>, id: string, other: string,
                                 eventId: string)
    requires ValidStart(enabled) && Legal(Start(enabled), tr)
    requires id in Exec(Start(enabled), tr).matches
    ensures var s := Exec(Start(enabled), tr);
            && TotalCreated(s.workers) == |s.matches|
            && (other in s.matches && s.matches[other] == s.matches[id] ==> other == id)
            && (AllIdle(s) ==>
                  id in s.expanded && (FirstKey(id, eventId) in s.rows <==> eventId in EventIds(s.expanded[id])))
  {
    InvRun(Start(enabled), tr);
    var s := Exec(Start(enabled), tr);
    assert MatchOk(s, id) && FirstOk(s, id, eventId);
    if AllIdle(s) {
      forall i ensures !Works(s, i, id) {}
    }
  }

  /** A re-read message never fires twice: recording an existing pair later changes nothing at all. */
  lemma RereadIsHarmless(enabled: map<string, seq<Event>>, before: seq<Label>, between: seq<Label>, id: string, w: nat,
                         newId: string)
    requires ValidStart(enabled) && Legal(Start(enabled), before) && id in Exec(Start(enabled), before).matches
    requires Legal(Exec(Start(enabled), before), between)
    requires var again := Record(w, Exec(Start(enabled), before).matches[id], newId);
             Enabled(Exec(Exec(Start(enabled), before), between), again)
    ensures var again := Record(w, Exec(Start(enabled), before).matches[id], newId);
            var s := Exec(Exec(Start(enabled), before), between);
            Apply(s, again) == s
  {
    InvRun(Start(enabled), before);
    InvRun(Exec(Start(enabled), before), between);
  }
}
