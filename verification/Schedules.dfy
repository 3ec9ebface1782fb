/** Which first runs a sync leaves in the queue. */
module Schedules {
  import opened Sync
  import opened Pipeline

  /** Runs belong to recorded matches, as the foreign key demands. */
  predicate RunHasMatch(st: Store, id: string, eventId: string) {
    FirstKey(id, eventId) in st.rows ==> id in st.matches
  }

  /** From st to t a match that was there stays, with the first runs it had, and a new one has a first run of
      this event if and only if the event is enabled for its watcher. */
  predicate ScheduledBetween(st: Store, t: Store, enabled: map<string, seq<Event>>, id: string, eventId: string) {
    && RunHasMatch(t, id, eventId)
    && (id in st.matches ==> id in t.matches && t.matches[id] == st.matches[id])
    && (FirstKey(id, eventId) in t.rows <==>
          if id in st.matches || id !in t.matches then FirstKey(id, eventId) in st.rows
          else && t.matches[id].watcherId in enabled
               && eventId in EventIds(enabled[t.matches[id].watcherId]))
  }

  lemma FiredSchedules(st: Store, enabled: map<string, seq<Event>>, key: MatchKey, newId: string, now: int,
                       id: string, eventId: string)
    requires ValidStart(enabled) && (Recorded(st.matches, key) || newId !in st.matches)
    requires RunHasMatch(st, id, eventId) && forall e :: RunHasMatch(st, newId, e)
    ensures ScheduledBetween(st, Fired(st, enabled, key, newId, now), enabled, id, eventId)
  {
    if !Recorded(st.matches, key) {
      assert forall e :: e in EventIds(EnabledFor(enabled, key.watcherId)) ==> RunHasMatch(st, newId, e);
      FirstRunsWritten(st.rows, newId, EnabledFor(enabled, key.watcherId), now, FirstKey(id, eventId));
    }
  }

  ghost predicate RunsHaveMatches(st: Store) {
    forall id, eventId :: RunHasMatch(st, id, eventId)
  }

  lemma EvaluateKeepsKey(st: Store, enabled: map<string, seq<Event>>, watchers: seq<Watcher>, m: Message,
                         passes: Filter, ids: NewIds, now: int, id: string, eventId: string)
    requires watchers != [] && ValidStart(enabled) && IdsFit(st.matches, ids) && RunsHaveMatches(st)
    ensures var key := KeyOf(watchers[0], m);
            var next := if Fires(watchers[0], m, passes, now) then Fired(st, enabled, key, ids(key), now) else st;
            IdsFit(next.matches, ids) && ScheduledBetween(st, next, enabled, id, eventId)
  {
    var key := KeyOf(watchers[0], m);
    FreshId(st.matches, ids, key);
    assert RunHasMatch(st, id, eventId);
    FiredSchedules(st, enabled, key, ids(key), now, id, eventId);
  }

  lemma {:induction false} EvaluatedSchedules(st: Store, enabled: map<string, seq<Event>>, watchers: seq<Watcher>,
                                              m: Message, passes: Filter, ids: NewIds, now: int,
                                              id: string, eventId: string)
    requires ValidStart(enabled) && IdsFit(st.matches, ids) && RunsHaveMatches(st)
    ensures ScheduledBetween(st, Evaluated(st, enabled, watchers, m, passes, ids, now), enabled, id, eventId)
    decreases |watchers|
  {
    if watchers == [] {
      assert RunHasMatch(st, id, eventId);
    } else {
      var key := KeyOf(watchers[0], m);
      var next := if Fires(watchers[0], m, passes, now) then Fired(st, enabled, key, ids(key), now) else st;
      forall i, e ensures RunHasMatch(next, i, e) {
        EvaluateKeepsKey(st, enabled, watchers, m, passes, ids, now, i, e);
      }
      EvaluateKeepsKey(st, enabled, watchers, m, passes, ids, now, id, eventId);
      EvaluatedSchedules(next, enabled, watchers[1..], m, passes, ids, now, id, eventId);
    }
  }

  /** A sync schedules occurrence 1 of every event enabled for the watcher of each match it records, and
      nothing else. */
  lemma {:induction false} SyncSchedulesExactly(st: Store, enabled: map<string, seq<Event>>, watchers: seq<Watcher>,
                                                messages: seq<Message>, passes: Filter, ids: NewIds, clock: seq<int>,
                                                id: string, eventId: string)
    requires ValidStart(enabled) && IdsFit(st.matches, ids) && RunsHaveMatches(st) && |clock| == |messages|
    ensures ScheduledBetween(st, Synced(st, enabled, watchers, messages, passes, ids, clock), enabled, id, eventId)
    decreases |messages|
  {
    if messages == [] {
      assert RunHasMatch(st, id, eventId);
    } else {
      var next := Evaluated(st, enabled, watchers, messages[0], passes, ids, clock[0]);
      forall i, e ensures RunHasMatch(next, i, e) {
        EvaluatedSchedules(st, enabled, watchers, messages[0], passes, ids, clock[0], i, e);
      }
      EvaluatedSchedules(st, enabled, watchers, messages[0], passes, ids, clock[0], id, eventId);
      EvaluatedKeys(st, enabled, watchers, messages[0], passes, ids, clock[0], MatchKey("", ""));
      SyncSchedulesExactly(next, enabled, watchers, messages[1..], passes, ids, clock[1..], id, eventId);
    }
  }
}
