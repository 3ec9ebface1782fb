/** One sync after the fetch, as it is written: loops over messages, watchers and events, one insert at a
    time. The methods are tied to a store function, the store function to the steps of the Sync machine. */
module Pipeline {
  import opened Common
  import opened Runs
  import opened Sync
  import Dispatcher

  datatype Message = Message(messageId: string, receivedAt: int)

  /** The watcher struct as the sync read it, once, before its first message. */
  datatype Watcher = Watcher(id: string, watchFrom: Option<int>, cooldownSeconds: int, lastMatchedAt: Option<int>)

  /** The filters, as a predicate of watcher and message. */
  type Filter = (Watcher, Message) -> bool

  /** uuid.NewString for a match. */
  type NewIds = MatchKey -> string

  datatype Store = Store(matches: map<string, MatchKey>, rows: Rows)

  // ------------------------------------------------------------ store functions

  function KeyOf(w: Watcher, m: Message): MatchKey {
    MatchKey(w.id, m.messageId)
  }

  predicate CoolingDown(w: Watcher, now: int) {
    0 < w.cooldownSeconds && w.lastMatchedAt.Some? && now - w.lastMatchedAt.value < w.cooldownSeconds * 1000
  }

  predicate Fires(w: Watcher, m: Message, passes: Filter, now: int) {
    !(w.watchFrom.Some? && m.receivedAt < w.watchFrom.value) && !CoolingDown(w, now) && passes(w, m)
  }

  function WithFirstRuns(rows: Rows, matchId: string, events: seq<Event>, now: int): Rows
    decreases |events|
  {
    if events == [] then rows
    else WithFirstRuns(Inserted(rows, FirstRun(matchId, events[0], now)), matchId, events[1..], now)
  }

  function Fired(st: Store, enabled: map<string, seq<Event>>, key: MatchKey, id: string, now: int): Store {
    if Recorded(st.matches, key) then st
    else Store(st.matches[id := key], WithFirstRuns(st.rows, id, EnabledFor(enabled, key.watcherId), now))
  }

  function Evaluated(st: Store, enabled: map<string, seq<Event>>, watchers: seq<Watcher>, m: Message,
                     passes: Filter, ids: NewIds, now: int): Store
    decreases |watchers|
  {
    if watchers == [] then st
    else
      var key := KeyOf(watchers[0], m);
      var next := if Fires(watchers[0], m, passes, now) then Fired(st, enabled, key, ids(key), now) else st;
      Evaluated(next, enabled, watchers[1..], m, passes, ids, now)
  }

  function Synced(st: Store, enabled: map<string, seq<Event>>, watchers: seq<Watcher>, messages: seq<Message>,
                  passes: Filter, ids: NewIds, clock: seq<int>): Store
    requires |clock| == |messages|
    decreases |messages|
  {
    if messages == [] then st
    else Synced(Evaluated(st, enabled, watchers, messages[0], passes, ids, clock[0]),
                enabled, watchers, messages[1..], passes, ids, clock[1..])
  }

  /** New ids collide with nothing: an id that is taken was taken by the same pair. */
  ghost predicate IdsFit(matches: map<string, MatchKey>, ids: NewIds) {
    && (forall k :: ids(k) in matches ==> matches[ids(k)] == k)
    && (forall a, b: MatchKey :: ids(a) == ids(b) ==> a == b)
  }

  // ---------------------------------------------------------------- the methods

  function CountOf(counts: map<string, nat>, id: string): nat {
    if id in counts then counts[id] else 0
  }

  class MatchTable {
    var rows: map<string, MatchKey>

    constructor ()
      ensures rows == map[]
    {
      rows := map[];
    }

    /** Insert or ignore on the unique (watcher, message) index. */
    method CreateIfNew(id: string, key: MatchKey) returns (isNew: bool)
      modifies this
      ensures isNew <==> !Recorded(old(rows), key)
      ensures rows == if isNew then old(rows)[id := key] else old(rows)
    {
      isNew := key !in rows.Values;
      if isNew {
        rows := rows[id := key];
      }
    }
  }

  class Worker {
    const matches: MatchTable
    const runs: Dispatcher.RunTable
    var enabled: map<string, seq<Event>>
    var lastMatchedAt: map<string, int>
    var matchCount: map<string, nat>

    constructor (matches: MatchTable, runs: Dispatcher.RunTable, enabled: map<string, seq<Event>>)
      ensures this.matches == matches && this.runs == runs && this.enabled == enabled
      ensures lastMatchedAt == map[] && matchCount == map[]
    {
      this.matches := matches;
      this.runs := runs;
      this.enabled := enabled;
      lastMatchedAt := map[];
      matchCount := map[];
    }

    function Value(): Store
      reads this, matches, runs
    {
      Store(matches.rows, runs.rows)
    }

    /** The counter bump touches the watchers table, not the struct the sync holds. */
    method RecordMatch(w: Watcher, m: Message, id: string, now: int) returns (isNew: bool)
      modifies matches, this`lastMatchedAt, this`matchCount
      ensures isNew <==> !Recorded(old(matches.rows), KeyOf(w, m))
      ensures matches.rows == if isNew then old(matches.rows)[id := KeyOf(w, m)] else old(matches.rows)
      ensures lastMatchedAt == if isNew then old(lastMatchedAt)[w.id := now] else old(lastMatchedAt)
      ensures matchCount == if isNew then old(matchCount)[w.id := CountOf(old(matchCount), w.id) + 1]
                            else old(matchCount)
    {
      isNew := matches.CreateIfNew(id, KeyOf(w, m));
      if !isNew {
        return;
      }
      lastMatchedAt := lastMatchedAt[w.id := now];
      matchCount := matchCount[w.id := CountOf(matchCount, w.id) + 1];
    }

    method ScheduleEvents(watcherId: string, matchId: string, now: int)
      modifies runs
      ensures runs.rows == WithFirstRuns(old(runs.rows), matchId, EnabledFor(enabled, watcherId), now)
      ensures runs.rows == WithFirstRuns(old(runs.rows), matchId,
                                         if watcherId in enabled then enabled[watcherId] else [], now)
    {
      var events := EnabledFor(enabled, watcherId);
      assert events[0..] == events;
      for i := 0 to |events|
        invariant WithFirstRuns(runs.rows, matchId, events[i..], now)
                  == WithFirstRuns(old(runs.rows), matchId, events, now)
      {
        assert events[i..][1..] == events[i + 1..];
        var created := runs.Create(FirstRun(matchId, events[i], now));
      }
    }

    method Evaluate(watchers: seq<Watcher>, m: Message, passes: Filter, ids: NewIds, now: int) returns (created: nat)
      requires IdsFit(matches.rows, ids)
      modifies matches, runs, this`lastMatchedAt, this`matchCount
      ensures Value() == Evaluated(old(Value()), enabled, watchers, m, passes, ids, now)
      ensures IdsFit(matches.rows, ids)
      ensures created == |matches.rows| - |old(matches.rows)|
    {
      created := 0;
      assert watchers[0..] == watchers;
      for i := 0 to |watchers|
        invariant Evaluated(Value(), enabled, watchers[i..], m, passes, ids, now)
                  == Evaluated(old(Value()), enabled, watchers, m, passes, ids, now)
        invariant IdsFit(matches.rows, ids)
        invariant created == |matches.rows| - |old(matches.rows)|
      {
        var w := watchers[i];
        assert watchers[i..][0] == w && watchers[i..][1..] == watchers[i + 1..];
        if w.watchFrom.Some? && m.receivedAt < w.watchFrom.value {
          continue;
        }
        if 0 < w.cooldownSeconds && w.lastMatchedAt.Some? {
          var elapsed := now - w.lastMatchedAt.value;
          if elapsed < w.cooldownSeconds * 1000 {
            continue;
          }
        }
        if !passes(w, m) {
          continue;
        }
        FreshId(matches.rows, ids, KeyOf(w, m));
        var isNew := RecordMatch(w, m, ids(KeyOf(w, m)), now);
        if !isNew {
          continue;
        }
        created := created + 1;
        ScheduleEvents(w.id, ids(KeyOf(w, m)), now);
      }
    }

    /** The message loop of SyncAccount, with the counter it reports. */
    method SyncMessages(watchers: seq<Watcher>, messages: seq<Message>, passes: Filter, ids: NewIds, clock: seq<int>)
      returns (matchesCreated: nat)
      requires |clock| == |messages| && IdsFit(matches.rows, ids)
      modifies matches, runs, this`lastMatchedAt, this`matchCount
      ensures Value() == Synced(old(Value()), enabled, watchers, messages, passes, ids, clock)
      ensures matchesCreated == |matches.rows| - |old(matches.rows)|
    {
      matchesCreated := 0;
      assert messages[0..] == messages && clock[0..] == clock;
      for i := 0 to |messages|
        invariant Synced(Value(), enabled, watchers, messages[i..], passes, ids, clock[i..])
                  == Synced(old(Value()), enabled, watchers, messages, passes, ids, clock)
        invariant IdsFit(matches.rows, ids)
        invariant matchesCreated == |matches.rows| - |old(matches.rows)|
      {
        assert messages[i..][1..] == messages[i + 1..] && clock[i..][1..] == clock[i + 1..];
        var created := Evaluate(watchers, messages[i], passes, ids, clock[i]);
        matchesCreated := matchesCreated + created;
      }
    }
  }

  lemma FreshId(matches: map<string, MatchKey>, ids: NewIds, key: MatchKey)
    requires IdsFit(matches, ids)
    ensures !Recorded(matches, key) ==> ids(key) !in matches && IdsFit(matches[ids(key) := key], ids)
  {
  }

  // ----------------------------------------------- what a sync leaves in the store

  predicate Candidate(watchers: seq<Watcher>, m: Message, passes: Filter, now: int, key: MatchKey) {
    exists i :: 0 <= i < |watchers| && Fires(watchers[i], m, passes, now) && key == KeyOf(watchers[i], m)
  }

  ghost predicate Wanted(watchers: seq<Watcher>, messages: seq<Message>, passes: Filter, clock: seq<int>, key: MatchKey)
    requires |clock| == |messages|
  {
    exists i :: 0 <= i < |messages| && Candidate(watchers, messages[i], passes, clock[i], key)
  }

  lemma {:induction false} EvaluatedKeys(st: Store, enabled: map<string, seq<Event>>, watchers: seq<Watcher>,
                                         m: Message, passes: Filter, ids: NewIds, now: int, key: MatchKey)
    requires IdsFit(st.matches, ids)
    ensures var t := Evaluated(st, enabled, watchers, m, passes, ids, now);
            && IdsFit(t.matches, ids)
            && (forall id :: id in st.matches ==> id in t.matches && t.matches[id] == st.matches[id])
            && (Recorded(t.matches, key) <==> Recorded(st.matches, key) || Candidate(watchers, m, passes, now, key))
    decreases |watchers|
  {
    if watchers != [] {
      var head := KeyOf(watchers[0], m);
      FreshId(st.matches, ids, head);
      var next := if Fires(watchers[0], m, passes, now) then Fired(st, enabled, head, ids(head), now) else st;
      EvaluatedKeys(next, enabled, watchers[1..], m, passes, ids, now, key);
      RecordedAfter(st.matches, ids(head), head, key);
      CandidateSplit(watchers, m, passes, now, key);
    }
  }

  lemma RecordedAfter(matches: map<string, MatchKey>, id: string, head: MatchKey, key: MatchKey)
    ensures id !in matches ==> (Recorded(matches[id := head], key) <==> Recorded(matches, key) || key == head)
  {
    var after := matches[id := head];
    assert after[id] == head;
    if id !in matches && Recorded(matches, key) {
      var i :| i in matches && matches[i] == key;
      assert after[i] == key;
    }
  }

  lemma CandidateSplit(watchers: seq<Watcher>, m: Message, passes: Filter, now: int, key: MatchKey)
    requires watchers != []
    ensures Candidate(watchers, m, passes, now, key) <==>
              (Fires(watchers[0], m, passes, now) && key == KeyOf(watchers[0], m))
              || Candidate(watchers[1..], m, passes, now, key)
  {
    if Candidate(watchers[1..], m, passes, now, key) {
      var i :| 0 <= i < |watchers[1..]| && Fires(watchers[1..][i], m, passes, now) && key == KeyOf(watchers[1..][i], m);
      assert watchers[i + 1] == watchers[1..][i];
    }
    if Candidate(watchers, m, passes, now, key) {
      var i :| 0 <= i < |watchers| && Fires(watchers[i], m, passes, now) && key == KeyOf(watchers[i], m);
      assert i > 0 ==> watchers[1..][i - 1] == watchers[i];
    }
  }

  /** A new match gets one pending first run per enabled event, due after that event's own delay, and no
      other row of the queue changes. */
  lemma {:induction false} FirstRunsWritten(rows: Rows, matchId: string, events: seq<Event>, now: int, key: Key)
    requires DistinctEvents(events) && forall id :: id in EventIds(events) ==> FirstKey(matchId, id) !in rows
    ensures var after := WithFirstRuns(rows, matchId, events, now);
            && (key in after <==>
                  key in rows || (key == FirstKey(matchId, key.chain.eventId) && key.chain.eventId in EventIds(events)))
            && (key in rows ==> after[key] == rows[key])
            && (forall i :: 0 <= i < |events| && key == FirstKey(matchId, events[i].id) ==>
                  && key in after
                  && after[key] == Run(key, Pending, now + 1000 * events[i].delaySeconds, None, None, 0, 3,
                                       None, None, None))
    decreases |events|
  {
    if events != [] {
      FirstRunMeans(matchId, events[0], now);
      FewerIds(events);
      FirstRunsWritten(Inserted(rows, FirstRun(matchId, events[0], now)), matchId, events[1..], now, key);
      forall i | 0 < i < |events| ensures events[i] == events[1..][i - 1] {}
    }
  }

  /** A sync adds exactly the pairs whose watcher fires on some fetched message, and keeps what was there. */
  lemma {:induction false} SyncRecordsExactly(st: Store, enabled: map<string, seq<Event>>, watchers: seq<Watcher>,
                                              messages: seq<Message>, passes: Filter, ids: NewIds, clock: seq<int>,
                                              key: MatchKey)
    requires |clock| == |messages| && IdsFit(st.matches, ids)
    ensures var t := Synced(st, enabled, watchers, messages, passes, ids, clock);
            && IdsFit(t.matches, ids)
            && (forall id :: id in st.matches ==> id in t.matches && t.matches[id] == st.matches[id])
            && (Recorded(t.matches, key) <==>
                  Recorded(st.matches, key) || Wanted(watchers, messages, passes, clock, key))
    decreases |messages|
  {
    if messages != [] {
      var next := Evaluated(st, enabled, watchers, messages[0], passes, ids, clock[0]);
      EvaluatedKeys(st, enabled, watchers, messages[0], passes, ids, clock[0], key);
      SyncRecordsExactly(next, enabled, watchers, messages[1..], passes, ids, clock[1..], key);
      if Wanted(watchers, messages[1..], passes, clock[1..], key) {
        var i :| 0 <= i < |messages[1..]| && Candidate(watchers, messages[1..][i], passes, clock[1..][i], key);
        assert Candidate(watchers, messages[i + 1], passes, clock[i + 1], key);
      }
      if Wanted(watchers, messages, passes, clock, key) {
        var i :| 0 <= i < |messages| && Candidate(watchers, messages[i], passes, clock[i], key);
        assert i > 0 ==> Candidate(watchers, messages[1..][i - 1], passes, clock[1..][i - 1], key);
      }
    }
  }

  /** Polling the same messages again, at any later times, changes neither table. */
  lemma {:induction false} SyncAgainIsIdle(st: Store, enabled: map<string, seq<Event>>, watchers: seq<Watcher>,
                                           messages: seq<Message>, passes: Filter, ids: NewIds, clock: seq<int>)
    requires |clock| == |messages|
    requires forall key :: Wanted(watchers, messages, passes, clock, key) ==> Recorded(st.matches, key)
    ensures Synced(st, enabled, watchers, messages, passes, ids, clock) == st
  {
    if messages != [] {
      forall key | Candidate(watchers, messages[0], passes, clock[0], key) ensures Recorded(st.matches, key) {
        assert Wanted(watchers, messages, passes, clock, key);
      }
      EvaluateAgainIsIdle(st, enabled, watchers, messages[0], passes, ids, clock[0]);
      forall key | Wanted(watchers, messages[1..], passes, clock[1..], key) ensures Recorded(st.matches, key) {
        var i :| 0 <= i < |messages[1..]| && Candidate(watchers, messages[1..][i], passes, clock[1..][i], key);
        assert Candidate(watchers, messages[i + 1], passes, clock[i + 1], key);
        assert Wanted(watchers, messages, passes, clock, key);
      }
      SyncAgainIsIdle(st, enabled, watchers, messages[1..], passes, ids, clock[1..]);
    }
  }

  lemma {:induction false} EvaluateAgainIsIdle(st: Store, enabled: map<string, seq<Event>>, watchers: seq<Watcher>,
                                               m: Message, passes: Filter, ids: NewIds, now: int)
    requires forall key :: Candidate(watchers, m, passes, now, key) ==> Recorded(st.matches, key)
    ensures Evaluated(st, enabled, watchers, m, passes, ids, now) == st
  {
    if watchers != [] {
      forall key ensures Candidate(watchers, m, passes, now, key) <==>
                           (Fires(watchers[0], m, passes, now) && key == KeyOf(watchers[0], m))
                           || Candidate(watchers[1..], m, passes, now, key)
      {
        CandidateSplit(watchers, m, passes, now, key);
      }
      EvaluateAgainIsIdle(st, enabled, watchers[1..], m, passes, ids, now);
    }
  }

  /** A watcher fires on a message exactly when it is not older than watch_from, the last recorded match is at
      least a cooldown ago, and the filters pass. */
  lemma FiresIff(w: Watcher, m: Message, passes: Filter, now: int)
    ensures Fires(w, m, passes, now) <==>
              && (w.watchFrom.Some? ==> w.watchFrom.value <= m.receivedAt)
              && (w.cooldownSeconds <= 0 || w.lastMatchedAt.None?
                  || w.lastMatchedAt.value + 1000 * w.cooldownSeconds <= now)
              && passes(w, m)
  {
  }

  // ------------------------------------------------ the cooldown within one sync

  /** The primary key of watchers. */
  ghost predicate DistinctWatchers(watchers: seq<Watcher>) {
    forall i, j :: 0 <= i < j < |watchers| ==> watchers[i].id != watchers[j].id
  }

  predicate Ascending(clock: seq<int>) {
    forall i, j :: 0 <= i < j < |clock| ==> clock[i] <= clock[j]
  }

  /** Everything the watcher asks of a message except the cooldown. */
  predicate Passing(w: Watcher, m: Message, passes: Filter) {
    !(w.watchFrom.Some? && m.receivedAt < w.watchFrom.value) && passes(w, m)
  }

  lemma CandidateOfWatcher(watchers: seq<Watcher>, w: Watcher, m: Message, passes: Filter, now: int, messageId: string)
    requires DistinctWatchers(watchers) && w in watchers
    ensures Candidate(watchers, m, passes, now, MatchKey(w.id, messageId)) <==>
              m.messageId == messageId && Fires(w, m, passes, now)
  {
    var key := MatchKey(w.id, messageId);
    var k :| 0 <= k < |watchers| && watchers[k] == w;
    if Candidate(watchers, m, passes, now, key) {
      var i :| 0 <= i < |watchers| && Fires(watchers[i], m, passes, now) && key == KeyOf(watchers[i], m);
      assert i == k;
    }
    if m.messageId == messageId && Fires(w, m, passes, now) {
      assert key == KeyOf(watchers[k], m);
    }
  }

  /** The cooldown does not throttle within a sync: if a watcher is not cooling down at the first clock
      reading, then, whatever its cooldown, each of its pairs is recorded if and only if it was recorded
      before or some fetched message with that id passes watch_from and the filters. */
  lemma CooldownIsPerSync(st: Store, enabled: map<string, seq<Event>>, watchers: seq<Watcher>, messages: seq<Message>,
                          passes: Filter, ids: NewIds, clock: seq<int>, w: Watcher, messageId: string)
    requires |clock| == |messages| && IdsFit(st.matches, ids) && Ascending(clock)
    requires DistinctWatchers(watchers) && w in watchers && (messages != [] ==> !CoolingDown(w, clock[0]))
    ensures var key := MatchKey(w.id, messageId);
            Recorded(Synced(st, enabled, watchers, messages, passes, ids, clock).matches, key) <==>
              || Recorded(st.matches, key)
              || exists i :: 0 <= i < |messages| && messages[i].messageId == messageId
                             && Passing(w, messages[i], passes)
  {
    var key := MatchKey(w.id, messageId);
    SyncRecordsExactly(st, enabled, watchers, messages, passes, ids, clock, key);
    forall i | 0 <= i < |messages|
      ensures Candidate(watchers, messages[i], passes, clock[i], key) <==>
                messages[i].messageId == messageId && Passing(w, messages[i], passes)
    {
      CandidateOfWatcher(watchers, w, messages[i], passes, clock[i], messageId);
      assert clock[0] <= clock[i];
    }
  }

  /** What the cooldown does do: a watcher that cools down throughout a sync records nothing in it. */
  lemma CoolingWatcherRecordsNothing(st: Store, enabled: map<string, seq<Event>>, watchers: seq<Watcher>,
                                     messages: seq<Message>, passes: Filter, ids: NewIds, clock: seq<int>, w: Watcher,
                                     messageId: string)
    requires |clock| == |messages| && IdsFit(st.matches, ids) && DistinctWatchers(watchers) && w in watchers
    requires 0 < w.cooldownSeconds && w.lastMatchedAt.Some?
    requires forall i :: 0 <= i < |clock| ==> clock[i] < w.lastMatchedAt.value + 1000 * w.cooldownSeconds
    ensures var key := MatchKey(w.id, messageId);
            Recorded(Synced(st, enabled, watchers, messages, passes, ids, clock).matches, key) <==>
              Recorded(st.matches, key)
  {
    var key := MatchKey(w.id, messageId);
    SyncRecordsExactly(st, enabled, watchers, messages, passes, ids, clock, key);
    forall i | 0 <= i < |messages| ensures !Candidate(watchers, messages[i], passes, clock[i], key) {
      CandidateOfWatcher(watchers, w, messages[i], passes, clock[i], messageId);
      FiresIff(w, messages[i], passes, clock[i]);
    }
  }

  /** One sync: what it read before its first message, what it fetched, and its clock readings. */
  datatype Batch = Batch(
    enabled: map<string, seq<Event>>,
    watchers: seq<Watcher>,
    messages: seq<Message>,
    passes: Filter,
    ids: NewIds,
    clock: seq<int>)

  ghost predicate IsBatch(st: Store, b: Batch, w: Watcher) {
    |b.clock| == |b.messages| && IdsFit(st.matches, b.ids) && DistinctWatchers(b.watchers) && w in b.watchers
  }

  /** The matches after the first n messages. */
  function MatchesAfter(st: Store, b: Batch, n: nat): map<string, MatchKey>
    requires n <= |b.messages| == |b.clock|
  {
    Synced(st, b.enabled, b.watchers, b.messages[..n], b.passes, b.ids, b.clock[..n]).matches
  }

  /** Message i is the one at which the sync records this pair. */
  predicate RecordsAt(st: Store, b: Batch, i: int, key: MatchKey) {
    && 0 <= i < |b.messages| == |b.clock|
    && !Recorded(MatchesAfter(st, b, i), key) && Recorded(MatchesAfter(st, b, i + 1), key)
  }

  /** Message i fires the watcher, its pair is new, and no earlier fetched message with its id fired it. */
  ghost predicate FirstToFire(st: Store, b: Batch, w: Watcher, i: int) {
    && 0 <= i < |b.messages| == |b.clock| && Fires(w, b.messages[i], b.passes, b.clock[i])
    && !Recorded(st.matches, KeyOf(w, b.messages[i]))
    && forall k :: 0 <= k < i && b.messages[k].messageId == b.messages[i].messageId ==>
         !Fires(w, b.messages[k], b.passes, b.clock[k])
  }

  /** Messages i and j are evaluated within the watcher's cooldown of each other. */
  predicate TooClose(b: Batch, w: Watcher, i: int, j: int) {
    0 <= i < j < |b.messages| == |b.clock| && b.clock[j] - b.clock[i] < w.cooldownSeconds * 1000
  }

  /** Two pairs of the watcher that this sync records lie closer together than the watcher's cooldown. */
  ghost predicate CooldownBroken(st: Store, b: Batch, w: Watcher) {
    exists i, j, first, second ::
      && TooClose(b, w, i, j)
      && RecordsAt(st, b, i, MatchKey(w.id, first)) && RecordsAt(st, b, j, MatchKey(w.id, second))
  }

  lemma RecordedAfterIff(st: Store, b: Batch, w: Watcher, n: nat, messageId: string)
    requires IsBatch(st, b, w) && n <= |b.messages|
    ensures Recorded(MatchesAfter(st, b, n), MatchKey(w.id, messageId)) <==>
              || Recorded(st.matches, MatchKey(w.id, messageId))
              || exists k :: 0 <= k < n && b.messages[k].messageId == messageId
                             && Fires(w, b.messages[k], b.passes, b.clock[k])
  {
    var key := MatchKey(w.id, messageId);
    SyncRecordsExactly(st, b.enabled, b.watchers, b.messages[..n], b.passes, b.ids, b.clock[..n], key);
    forall k | 0 <= k < n
      ensures Candidate(b.watchers, b.messages[..n][k], b.passes, b.clock[..n][k], key) <==>
                b.messages[k].messageId == messageId && Fires(w, b.messages[k], b.passes, b.clock[k])
    {
      CandidateOfWatcher(b.watchers, w, b.messages[k], b.passes, b.clock[k], messageId);
    }
  }

  lemma RecordsAtIff(st: Store, b: Batch, w: Watcher, i: nat, messageId: string)
    requires IsBatch(st, b, w) && i < |b.messages|
    ensures RecordsAt(st, b, i, MatchKey(w.id, messageId)) <==>
              b.messages[i].messageId == messageId && FirstToFire(st, b, w, i)
  {
    RecordedAfterIff(st, b, w, i, messageId);
    RecordedAfterIff(st, b, w, i + 1, messageId);
  }

  ghost predicate TwoFirsts(st: Store, b: Batch, w: Watcher) {
    exists i, j :: TooClose(b, w, i, j) && FirstToFire(st, b, w, i) && FirstToFire(st, b, w, j)
  }

  /** A sync breaks its watcher's cooldown if and only if two fetched messages, each the first of its id to
      fire a pair that is not recorded yet, are evaluated within the cooldown of each other. */
  lemma CooldownBrokenIff(st: Store, b: Batch, w: Watcher)
    requires IsBatch(st, b, w)
    ensures CooldownBroken(st, b, w) <==> TwoFirsts(st, b, w)
  {
    if CooldownBroken(st, b, w) {
      var i, j, first, second :| && TooClose(b, w, i, j) && RecordsAt(st, b, i, MatchKey(w.id, first))
                                 && RecordsAt(st, b, j, MatchKey(w.id, second));
      RecordsAtIff(st, b, w, i, first);
      RecordsAtIff(st, b, w, j, second);
    }
    if TwoFirsts(st, b, w) {
      var i, j :| TooClose(b, w, i, j) && FirstToFire(st, b, w, i) && FirstToFire(st, b, w, j);
      RecordsAtIff(st, b, w, i, b.messages[i].messageId);
      RecordsAtIff(st, b, w, j, b.messages[j].messageId);
    }
  }

  ghost predicate NewlyPassing(st: Store, b: Batch, w: Watcher, i: int) {
    0 <= i < |b.messages| && Passing(w, b.messages[i], b.passes) && !Recorded(st.matches, KeyOf(w, b.messages[i]))
  }

  lemma FirstOfId(st: Store, b: Batch, w: Watcher, i: nat) returns (first: nat)
    requires NewlyPassing(st, b, w, i) && |b.clock| == |b.messages|
    requires Ascending(b.clock) && !CoolingDown(w, b.clock[0])
    ensures first <= i && b.messages[first].messageId == b.messages[i].messageId && FirstToFire(st, b, w, first)
  {
    first := 0;
    assert b.clock[0] <= b.clock[i] && Fires(w, b.messages[i], b.passes, b.clock[i]);
    while !(b.messages[first].messageId == b.messages[i].messageId
            && Fires(w, b.messages[first], b.passes, b.clock[first]))
      invariant first <= i
      invariant forall k :: 0 <= k < first && b.messages[k].messageId == b.messages[i].messageId ==>
                  !Fires(w, b.messages[k], b.passes, b.clock[k])
      decreases i - first
    {
      first := first + 1;
    }
  }

  ghost predicate TwoNew(st: Store, b: Batch, w: Watcher) {
    exists i, j :: && NewlyPassing(st, b, w, i) && NewlyPassing(st, b, w, j)
                   && b.messages[i].messageId != b.messages[j].messageId
  }

  /** For a watcher that is not cooling down when the sync starts, and a sync that is over before a cooldown
      would be: the cooldown is broken if and only if two messages with different ids pass whose pairs are
      new. */
  lemma QuickSyncBreaksCooldownIff(st: Store, b: Batch, w: Watcher)
    requires IsBatch(st, b, w) && Ascending(b.clock) && b.messages != [] && !CoolingDown(w, b.clock[0])
    requires b.clock[|b.clock| - 1] - b.clock[0] < w.cooldownSeconds * 1000
    ensures CooldownBroken(st, b, w) <==> TwoNew(st, b, w)
  {
    CooldownBrokenIff(st, b, w);
    if TwoNew(st, b, w) {
      var i, j :| && NewlyPassing(st, b, w, i) && NewlyPassing(st, b, w, j)
                  && b.messages[i].messageId != b.messages[j].messageId;
      var first := FirstOfId(st, b, w, i);
      var second := FirstOfId(st, b, w, j);
      assert TooClose(b, w, if first < second then first else second, if first < second then second else first);
    }
    if TwoFirsts(st, b, w) {
      var i, j :| TooClose(b, w, i, j) && FirstToFire(st, b, w, i) && FirstToFire(st, b, w, j);
      assert NewlyPassing(st, b, w, i) && NewlyPassing(st, b, w, j);
    }
  }

  const HourlyWatcher := Watcher("w", None, 3600, None)

  /** Two messages fetched together and evaluated in the same millisecond, against an hour's cooldown: both
      are recorded. */
  lemma TwoAtOnce(ids: NewIds) returns (b: Batch)
    requires IdsFit(map[], ids)
    ensures IsBatch(Store(map[], map[]), b, HourlyWatcher) && b.ids == ids
    ensures CooldownBroken(Store(map[], map[]), b, HourlyWatcher)
  {
    b := Batch(map[], [HourlyWatcher], [Message("a", 0), Message("b", 0)], (_, _) => true, ids, [0, 0]);
    var st := Store(map[], map[]);
    assert NewlyPassing(st, b, HourlyWatcher, 0) && NewlyPassing(st, b, HourlyWatcher, 1);
    QuickSyncBreaksCooldownIff(st, b, HourlyWatcher);
  }

  // -------------------------------------------------- the loops are machine steps

  function Writes(w: nat, n: nat, now: int): (tr: seq<Label>)
    ensures |tr| == n
  {
    if n == 0 then [] else [WriteRun(w, now)] + Writes(w, n - 1, now)
  }

  lemma {:induction false} ScheduleIsItsWrites(s: State, w: nat, matchId: string, left: seq<Event>, now: int)
    requires w < |s.workers| && s.workers[w].phase == NextPhase(matchId, left)
    ensures Legal(s, Writes(w, |left|, now))
    ensures var t := Exec(s, Writes(w, |left|, now));
            && t.rows == WithFirstRuns(s.rows, matchId, left, now)
            && t.matches == s.matches && t.enabled == s.enabled
            && |t.workers| == |s.workers| && t.workers[w].phase.Scanning?
    decreases |left|
  {
    if left != [] {
      var tr := Writes(w, |left|, now);
      assert tr[0] == WriteRun(w, now) && tr[1..] == Writes(w, |left| - 1, now);
      ScheduleIsItsWrites(Apply(s, tr[0]), w, matchId, left[1..], now);
    }
  }

  ghost predicate Holds(s: State, w: nat, st: Store) {
    w < |s.workers| && s.workers[w].phase.Scanning? && s.matches == st.matches && s.rows == st.rows
  }

  lemma FireIsItsSteps(s: State, w: nat, st: Store, key: MatchKey, id: string, now: int) returns (tr: seq<Label>)
    requires Holds(s, w, st) && (Recorded(s.matches, key) || id !in s.matches)
    ensures Legal(s, tr) && Exec(s, tr).enabled == s.enabled
    ensures Holds(Exec(s, tr), w, Fired(st, s.enabled, key, id, now))
  {
    if Recorded(s.matches, key) {
      tr := [];
    } else {
      var s1 := Apply(s, Record(w, key, id));
      var s2 := Apply(s1, ReadEvents(w));
      var events := EnabledFor(s.enabled, key.watcherId);
      ScheduleIsItsWrites(s2, w, id, events, now);
      var rest := Writes(w, |events|, now);
      tr := [Record(w, key, id), ReadEvents(w)] + rest;
      assert tr[1..] == [ReadEvents(w)] + rest && tr[1..][1..] == rest;
      assert Legal(s1, tr[1..]);
    }
  }

  lemma {:induction false} JoinTraces(s: State, tr: seq<Label>, more: seq<Label>)
    requires Legal(s, tr) && Legal(Exec(s, tr), more)
    ensures Legal(s, tr + more) && Exec(s, tr + more) == Exec(Exec(s, tr), more)
    decreases |tr|
  {
    if tr == [] {
      assert tr + more == more;
    } else {
      assert (tr + more)[1..] == tr[1..] + more;
      JoinTraces(Apply(s, tr[0]), tr[1..], more);
    }
  }

  lemma {:induction false} EvaluateIsItsSteps(s: State, w: nat, st: Store, watchers: seq<Watcher>, m: Message,
                                              passes: Filter, ids: NewIds, now: int) returns (tr: seq<Label>)
    requires Holds(s, w, st) && IdsFit(s.matches, ids)
    ensures Legal(s, tr) && Exec(s, tr).enabled == s.enabled
    ensures Holds(Exec(s, tr), w, Evaluated(st, s.enabled, watchers, m, passes, ids, now))
    decreases |watchers|
  {
    if watchers == [] {
      tr := [];
    } else {
      var head := [];
      var key := KeyOf(watchers[0], m);
      FreshId(s.matches, ids, key);
      if Fires(watchers[0], m, passes, now) {
        head := FireIsItsSteps(s, w, st, key, ids(key), now);
      }
      var next := if Fires(watchers[0], m, passes, now) then Fired(st, s.enabled, key, ids(key), now) else st;
      var rest := EvaluateIsItsSteps(Exec(s, head), w, next, watchers[1..], m, passes, ids, now);
      JoinTraces(s, head, rest);
      tr := head + rest;
    }
  }

  /** Whatever one sync does to the two tables is a legal run of the overlapping-syncs machine, so its
      theorems hold of the methods above. */
  lemma {:induction false} SyncIsItsSteps(s: State, w: nat, st: Store, watchers: seq<Watcher>, messages: seq<Message>,
                                          passes: Filter, ids: NewIds, clock: seq<int>) returns (tr: seq<Label>)
    requires Holds(s, w, st) && IdsFit(s.matches, ids) && |clock| == |messages|
    ensures Legal(s, tr) && Exec(s, tr).enabled == s.enabled
    ensures Holds(Exec(s, tr), w, Synced(st, s.enabled, watchers, messages, passes, ids, clock))
    decreases |messages|
  {
    if messages == [] {
      tr := [];
    } else {
      var head := EvaluateIsItsSteps(s, w, st, watchers, messages[0], passes, ids, clock[0]);
      EvaluatedKeys(st, s.enabled, watchers, messages[0], passes, ids, clock[0], MatchKey("", ""));
      var next := Evaluated(st, s.enabled, watchers, messages[0], passes, ids, clock[0]);
      var rest := SyncIsItsSteps(Exec(s, head), w, next, watchers, messages[1..], passes, ids, clock[1..]);
      JoinTraces(s, head, rest);
      tr := head + rest;
    }
  }
}
