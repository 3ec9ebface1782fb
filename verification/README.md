# MailPulse: a verified model of its work protocols

MailPulse polls mailboxes, matches messages against a user's watchers, and turns every match into scheduled
notifications. Its processes share no memory: work is handed over through database rows and Redis keys. This
project models those hand-overs in Dafny and proves what they guarantee.

Each protocol appears twice. The code that mutates structs and rows is written as classes and methods with the
same branches, proved against specification functions. Those functions are the steps of a state machine in
which any number of workers and users interleave freely, and the theorems are about every run of that machine.
Three lemmas tie the forms together where the granularity differs: `Dispatcher.ExecuteIsItsSteps`,
`Dispatcher.TickIsItsSteps` and `Pipeline.SyncIsItsSteps`.

| file | what it holds |
|---|---|
| `Common.dfy` | `Option`, `Min`, `Max` |
| `Notify.dfy` | the notify handler: fan-out and error rule |
| `Runs.dfy` | an `event_runs` row, the retry backoff in int64 arithmetic, what one execution does to a row |
| `Queue.dfy` | the queue as a state machine; numbering, ownership and exclusion hold at every step |
| `Chains.dfy` | order, attempt budgets, claim counts and at-most-once delivery over whole runs |
| `Results.dfy` | what a settled status says about the executions behind it |
| `Stopping.dfy` | exactly when a cancel or an acknowledgement ends a repeat chain |
| `Bounds.dfy` | how many occurrences and executions a chain can have, how far apart its attempts are |
| `Repeats.dfy` | the bound on occurrences is exact: chains that repeat as often as it allows |
| `Fairness.dfy` | how long a due run can be passed over |
| `Dispatcher.dfy` | the worker and the user actions, field by field, with whole-row saves |
| `Tokens.dfy` | an account's credentials, every writer that merges them, the refresh methods |
| `Renewal.dfy` | token renewal by several workers behind an expiring lock |
| `Polling.dfy` | claiming due mailboxes, and the save that puts `next_poll_at` back |
| `Imap.dfy` | the UID cursor |
| `Sync.dfy`, `Pipeline.dfy`, `Schedules.dfy` | overlapping syncs: dedupe and first occurrences; the loops of one sync; the runs they leave |
| `Sessions.dfy`, `SessionStore.dfy` | the session cache in front of `user_sessions`; its operations in place |
| `SessionRace.dfy` | verification and revocation with the read and the cache write apart |
| `RateLimit.dfy` | the fixed-window limiter |

## Where the code and its comments disagree

The model follows the code. Each item is a theorem of this project.

- A repeat chain can survive a cancel. `internal/usecase/dispatcher_usecase.go:211-212` says it cannot; it can
  exactly when a worker holds the chain at that moment (`Stopping.CancelEndsChainIff`, with the concrete run in
  `Stopping.BusyChainSurvives`). The same holds of an acknowledgement with `stop_on_ack`, because the worker
  saves its own older copy of the row (`Stopping.AckStopsChainIff`). A cancel that hits the chain's pending run
  always works.
- Pushing `next_poll_at` forward inside the claim does not space the polls: the final save puts the old value
  back, so the account is due again at once exactly when its sync was stored (`Polling.DueAgainIffStored`), and
  one interval can hold any number of polls (`Polling.NotOncePerInterval`). What the claim does give is
  exclusion, for as long as no sync outlives its interval (`Polling.NoMailboxTwiceAtOnce`), and no longer
  (`Polling.HeldIsDueIffOverrun`).
- The cooldown does not throttle within one sync, because the sync tests the watcher as it read it at the start
  (`Pipeline.CooldownIsPerSync`). `Pipeline.CooldownBrokenIff` says exactly when one sync breaks it, and
  `Pipeline.TwoAtOnce` is a sync that does.
- A sync's final whole-row save can put a retired refresh token back (`Renewal.StaleSaveUndoesRenewal`).
  `Renewal.SaveHarmsIff` is the exact condition. With a provider that issues no refresh token twice it comes down
  to what a caller can check before it saves: whether its refresh token is still the stored one
  (`Renewal.StaleSaveHarmsIff`, `Renewal.ComparingIsEnough`).
- "Once, across however many workers" fails for the same reason: that save can also put an expiry back and make
  two granted exchanges fall into one expiry (`Renewal.StaleSaveDoublesExchange`), under the exact condition of
  `Renewal.SaveDoublesIff`.
- Revoking a session is immediate if and only if no request that read the row before the revocation is still to
  answer (`SessionRace.ImmediateIff`); how long the token can last otherwise is bounded, and the bound is reached.
- A rate limit below 1 still lets one call through per window (`RateLimit.LimitMetIff`). The comment's factor
  of two at the seam is in fact `2 * limit - 1`, and that is reached.
- The first poll of a mailbox is complete only if nothing readable lies outside the newest `limit` messages
  (`Imap.PollCompleteIff`).

## Model

| member | source | states |
|---|---|---|
| Notify.Execute | internal/usecase/event/notify_handler.go:125-192 | one delivery per attached notifier through the four gates in order; sent + failed = notifiers attached; an error exactly when no notifier could be reached |
| Notify.ErrorMeansNothingSent | internal/usecase/event/notify_handler.go:185-192 | an attempt asks to be retried if and only if nothing at all was delivered |
| Notify.SentAtMostOncePerAttempt | internal/usecase/event/notify_handler.go:133-178 | within one attempt each notifier has one delivery |
| Runs.WrapInt64 | internal/usecase/dispatcher_usecase.go:189 | int64 wrap-around: in range, congruent modulo 2^64, the identity exactly on the range |
| Runs.BackoffExactIff | internal/usecase/dispatcher_usecase.go:187-192 | the shifted and multiplied backoff equals 30 s times 2^attempt if and only if attempt is at most 28 |
| Runs.SettledMeans | internal/usecase/dispatcher_usecase.go:131-209 | an execution succeeds exactly when some notifier passed all four gates or the call returned no error, is put back exactly when it ran, failed and has attempts left, and fails otherwise, with the due time, end, error and counters of each case |
| Runs.NextRunIff | internal/usecase/dispatcher_usecase.go:213-252 | exactly when occurrence n + 1 is written, and the whole row: due 1000 ms per second of interval later, attempt 0, the same max_attempts |
| Queue.ShapeStep | internal/usecase/dispatcher_usecase.go:49-259 | every step of every worker and user, Retry included, keeps contiguous numbering, exclusive holding, and "running only while held" |
| Queue.RestartedMeans | internal/usecase/activity_usecase.go:200-204 | Retry sets the run in flight with no attempt used, no error and no end, and leaves the schedule and the acknowledgement |
| Queue.AckedMeans | internal/usecase/activity_usecase.go:251-264 | an acknowledgement stamps the run whatever the event says, and cancels exactly the pending runs after it when the event stops on it |
| Chains.NumberedFromOne | internal/usecase/dispatcher_usecase.go:242-258 | the occurrences of a chain are exactly 1..n |
| Chains.QueueSafety | internal/usecase/dispatcher_usecase.go:49-209 | in every reachable state: occurrences are 1..n, no run is held by two workers, a row is running if and only if some worker holds it |
| Chains.GoodStep | internal/usecase/dispatcher_usecase.go:119-259 | without Retry, every step also keeps order, attempt budgets, agreement of a worker's copy with its row, claim counts, and sent-once |
| Chains.OnlyTheLastIsOpen | internal/usecase/dispatcher_usecase.go:184-209 | without Retry every occurrence before the last has succeeded, a retried pending run has attempts left, and no run is started more than max_attempts times |
| Chains.DeliveredAtMostOnce | internal/usecase/event/notify_handler.go:185-192 | over all automatic attempts of a run only one delivered anything, and each notifier was sent to successfully at most once |
| Results.StatusMeans | internal/usecase/dispatcher_usecase.go:131-206 | without Retry, a run is succeeded if and only if some execution of it had a handler that ran and got somewhere, and failed if and only if some execution found its match, event or watcher gone or was its last |
| Chains.ExecutedOncePerClaim | internal/usecase/dispatcher_usecase.go:49-111 | every claim is executed exactly once: never before its worker lets go of it, once afterwards |
| Stopping.CancelEndsChainIff | internal/usecase/activity_usecase.go:215-238 | with events edited at any time, nothing of the chain is ever claimed again after a cancel, if and only if no worker holds the chain in a way that can extend it |
| Stopping.CancelEndsFixedChainIff | internal/usecase/activity_usecase.go:215-238 | the same with the event's settings fixed: only a worker whose run has attempts left or may be followed up is an obstacle |
| Stopping.CancelOfPendingRunEndsChain | internal/usecase/activity_usecase.go:215-238 | a cancel that hits the chain's pending run ends the chain for good |
| Stopping.AckStopsChainIff | internal/usecase/activity_usecase.go:240-274 | with fixed settings and stop_on_ack, no later occurrence is ever started after an acknowledgement, if and only if no worker can outrun it |
| Stopping.OnlyLaterPendingRunsStop | internal/usecase/activity_usecase.go:215-274 | a cancel or acknowledgement changes the status of pending runs further on in that chain only, and only to cancelled; the acknowledged run keeps its own |
| Stopping.BusyChainSurvives | internal/usecase/dispatcher_usecase.go:211-259 | a concrete run in which occurrence 2 is written and started after occurrence 1 was cancelled, or acknowledged, in flight |
| Bounds.OccurrenceBound | internal/usecase/dispatcher_usecase.go:213-252 | at most repeat_max occurrences, and at most 1 + max(0, floor((repeat_until - first success) / interval)) |
| Repeats.OccurrencesIff | internal/usecase/dispatcher_usecase.go:213-252 | for every repeating event and first success, a chain with exactly n occurrences exists if and only if n is within repeat_max and repeat_until, so the bound is attained |
| Bounds.ExecutionBound | internal/usecase/dispatcher_usecase.go:184-252 | a chain is executed at most occurrences times max_attempts, hence within a bound fixed by repeat_max, or by repeat_until once the first success is known |
| Bounds.ChainSettles | internal/usecase/dispatcher_usecase.go:119-259 | in a run of any length the claims, settles and follow-ups of a chain together stay within three times that bound, so the chain settles |
| Bounds.AttemptsAreSpaced | internal/usecase/dispatcher_usecase.go:187-197 | attempt a of a run, a up to 29, starts no earlier than 30 (2^a - 2) seconds after the run was first due, whatever max_attempts is |
| Bounds.CodeRunsAreSpaced | internal/usecase/pipeline_usecase.go:349-359 | runs scheduled with the max_attempts the pipeline writes never start any attempt too early |
| Bounds.ColumnLimitIff | internal/usecase/dispatcher_usecase.go:187-197 | the limit of the max_attempts column: all attempts of all runs scheduled with a value are spaced if and only if it is at most 29; the code itself writes none above 3 |
| Bounds.SpacingHoldsIff | internal/usecase/dispatcher_usecase.go:187-197 | for an arbitrary max_attempts, attempt a is spaced in every run if and only if a is at most 29 |
| Fairness.NobodyCutsIn | internal/repository/event_run_repository.go:19-28 | whatever becomes pending after a run was due is queued behind it |
| Fairness.ClaimedWithin | internal/repository/event_run_repository.go:19-28 | a due run with r other pending runs scheduled no later is passed over by at most r / limit ticks |
| Fairness.WaitingEndsByClaim | internal/repository/event_run_repository.go:19-28 | a waiting run stops waiting only by being claimed or by a user acting on its chain |
| Fairness.ClaimExists | internal/repository/event_run_repository.go:19-28 | for every table, limit and set of locked rows some batch answers the claim query |
| Dispatcher.RunTable.Save | internal/repository/repository.go:20-22 | a save replaces the whole row by the caller's struct |
| Dispatcher.RunTable.Create | internal/repository/repository.go:9-11 | an insert behind the unique index: a duplicate is refused and changes nothing |
| Dispatcher.RunTable.CancelPendingAfter | internal/repository/event_run_repository.go:72-80 | cancels exactly the pending runs of the chain from the occurrence on, and counts them |
| Dispatcher.Worker.Claim | internal/usecase/dispatcher_usecase.go:52-75 | the claimed rows, and only they, are flipped to running; the attempt column is not touched |
| Dispatcher.Worker.WriteDeliveries | internal/usecase/dispatcher_usecase.go:261-286 | appends one record per delivery, in order |
| Dispatcher.Worker.Fail | internal/usecase/dispatcher_usecase.go:288-294 | the run is failed with its reason and the whole struct is saved |
| Dispatcher.Worker.RetryOrGiveUp | internal/usecase/dispatcher_usecase.go:184-202 | put back with the backoff while attempts are left, failed otherwise, and saved |
| Dispatcher.Worker.ScheduleNext | internal/usecase/dispatcher_usecase.go:213-259 | inserts occurrence n + 1 exactly when mode, repeat_max, acknowledgement, interval and repeat_until allow, due one interval from now, and touches nothing else |
| Dispatcher.Worker.Perform | internal/usecase/dispatcher_usecase.go:119-209 | every exit path leaves the struct, the table and the deliveries as the settle and follow functions say |
| Dispatcher.Worker.Execute | internal/usecase/dispatcher_usecase.go:113-209 | besides, case by case: succeeded exactly when the handler got somewhere, put back with the doubled backoff exactly when it ran and failed with attempts left, failed with the reason when something is gone |
| Dispatcher.ExecuteIsItsSteps | internal/usecase/dispatcher_usecase.go:119-209 | an undisturbed execution is the machine's settle step and, after a success, its follow step |
| Dispatcher.Worker.RunBatch | internal/usecase/dispatcher_usecase.go:85-111 | one execution for each claimed struct, with the rows and deliveries of all of them |
| Dispatcher.Worker.Tick | internal/usecase/dispatcher_usecase.go:48-83 | reads the due rows into structs, flips the rows, executes each struct once and reports how many |
| Dispatcher.BatchSettlesEach | internal/usecase/dispatcher_usecase.go:85-111 | after a batch every claimed row is its own struct settled by its own outcome, other rows are untouched, and every new row is the follow-up of one of them |
| Dispatcher.TickIsItsSteps | internal/usecase/dispatcher_usecase.go:48-111 | an undisturbed tick is a legal run of the machine: the claim, then the steps of each execution |
| Dispatcher.Worker.Retry | internal/usecase/activity_usecase.go:187-213 | refused while in flight; otherwise restarted from attempt 0 and executed at once, with that execution's rows and deliveries |
| Dispatcher.Worker.Cancel | internal/usecase/activity_usecase.go:215-238 | cancels this and every later pending run and reports how many |
| Dispatcher.Worker.Ack | internal/usecase/activity_usecase.go:240-274 | stamps the run and, with stop_on_ack, cancels the pending runs after it and reports exactly how many |
| Tokens.Store.Acquire | internal/gateway/cache/lock.go:40-47 | taken exactly when no unexpired key is there, for the given time to live |
| Tokens.Store.Release | internal/gateway/cache/lock.go:51-55 | removes the key, whoever set it |
| Tokens.Adopt | internal/usecase/mail_resolver.go:302-309 | copies the three credential columns and nothing else |
| Tokens.StoreGrant | internal/usecase/mail_resolver.go:311-345 | merges the grant; an empty refresh token keeps the old one; the row is the struct |
| Tokens.HandleRefreshFailure | internal/usecase/mail_resolver.go:354-373 | parks the account on a revoked grant and changes nothing on any other failure |
| Tokens.AwaitRefresh | internal/usecase/mail_resolver.go:269-292 | adopts the first of eight reads that is outside the window; gives up at a missing row or a cancelled wait, and then keeps its copy |
| Tokens.RefreshAlone | internal/usecase/mail_resolver.go:225-267 | every way out of an uncontended refresh: no need, not configured, adopted, unreadable credentials, renewed, parked, unavailable; the lock is free afterwards |
| Tokens.RefreshedMeans | internal/usecase/mail_resolver.go:225-267 | which way out is taken when, and what it leaves: a granted refresh leaves the granted access token in struct and row, an adopted one the stored token, any other ending the caller's own |
| Tokens.EditCredentials | internal/usecase/mail_account_usecase.go:327-354 | only what was typed replaces a stored credential; changed credentials go back to verification |
| Tokens.Reconnect | internal/usecase/mail_account_usecase.go:814-917 | refused for another mailbox; otherwise merged into the stored credentials |
| Tokens.NothingIsCleared | internal/usecase/mail_account_usecase.go:330-350 | over every sequence of edits, consents, renewals, parkings and adopt-and-saves no stored refresh token, login name or password becomes empty; only a form replaces a login name or password, only a grant a refresh token |
| Tokens.StoredIsLatest | internal/usecase/mail_account_usecase.go:853-884 | over every sequence of writes the stored access token is the last granted, the refresh token and expiry the last a grant brought, the login name and password the last typed |
| Tokens.OtherColumns | internal/usecase/mail_account_usecase.go:870-884 | what each writer makes of mode, status, error, scopes and sync state |
| Tokens.NeedsRefreshIff | internal/usecase/mail_resolver.go:205-218 | renewal is due from five minutes before expiry, on OAuth accounts of known expiry only |
| Renewal.OneRenewerAtATime | internal/usecase/mail_resolver.go:239-247 | if critical sections end inside the lock's time to live, two workers are never both inside; nothing else is assumed |
| Renewal.RefreshIsItsSteps | internal/usecase/mail_resolver.go:225-267 | an uncontended refresh, as the method performs it, is a run of the renewal machine with the same struct and row |
| Renewal.GrantIsStored | internal/usecase/mail_resolver.go:311-345 | after a granted answer is stored, row and struct carry the token just granted |
| Renewal.WaiterReads | internal/usecase/mail_resolver.go:269-292 | a waiting worker adopts the first row outside its window and keeps its own copy after the eighth read |
| Renewal.EveryExchangeIsDue | internal/usecase/mail_resolver.go:225-267 | under any interleaving every exchange happens while the stored token is inside its refresh window, provided critical sections end in time and nobody saves a struct that is not due while another worker is about to exchange |
| Renewal.SaveWastesIff | internal/usecase/pipeline_usecase.go:226-234 | that proviso is exact: a save can be followed by an exchange outside the window if and only if somebody is about to exchange and the saved struct is not due |
| Renewal.OneExchangePerExpiry | internal/usecase/mail_resolver.go:225-267 | after a granted exchange the next granted one comes only when that token is within the window itself, provided critical sections end in time, new tokens expire beyond the window, and nobody saves an earlier expiry over one that is still ahead |
| Renewal.SaveDoublesIff | internal/usecase/pipeline_usecase.go:226-234 | between critical sections a save can be followed by two granted exchanges in one expiry if and only if the account can be renewed and some granted expiry lies beyond the window and after the saved one |
| Renewal.StaleSaveDoublesExchange | internal/usecase/pipeline_usecase.go:226-234 | a concrete run in which a sync's save makes the provider grant twice within one expiry |
| Renewal.SpendsTheStoredToken | internal/usecase/mail_resolver.go:249-266 | with long-lived tokens, brief holds and harmless saves every exchange spends the stored refresh token, which is the one the provider issued last, although the code reads an older copy |
| Renewal.SaveHarmsIff | internal/usecase/pipeline_usecase.go:226-234 | between critical sections a whole-row save can lead to a retired token being spent if and only if the account can be renewed and the saved refresh token is not the stored one, or the saved expiry lets a worker with an older copy renew |
| Renewal.SaveUnderGrantIsHarmless | internal/usecase/mail_resolver.go:311-345 | a save made while another worker is about to store a granted answer spends no retired token, whatever it saves, because the row is overwritten |
| Renewal.ComparingIsEnough | internal/usecase/pipeline_usecase.go:226-234 | if the provider issues no refresh token twice, callers that save only with the stored refresh token make every exchange spend the stored token |
| Renewal.StaleSaveHarmsIff | internal/usecase/pipeline_usecase.go:226-234 | after such a run the next save of a renewable account can do harm if and only if its refresh token is not the stored one |
| Renewal.StaleSaveUndoesRenewal | internal/usecase/pipeline_usecase.go:226-234 | a concrete run in which a sync's save restores a retired refresh token and the next exchange spends it |
| Polling.Worker.Claim | internal/usecase/pipeline_usecase.go:70-89 | moves next_poll_at in the claimed rows only; the structs keep the value from before |
| Polling.Worker.Finish | internal/usecase/pipeline_usecase.go:194-234 | the whole row becomes the struct after a stored or failed fetch, and is left alone otherwise |
| Polling.Worker.PollDue | internal/usecase/pipeline_usecase.go:64-94 | undisturbed, a stored sync leaves the row exactly as it was before the claim |
| Polling.NoMailboxTwiceAtOnce | internal/usecase/pipeline_usecase.go:64-129 | among pollers, while no sync outlives its interval, no mailbox is synced twice at once |
| Polling.HeldIsDueIffOverrun | internal/usecase/pipeline_usecase.go:77-83 | a mailbox under sync can be claimed again if and only if the sync has used up its interval |
| Polling.DueAgainIffStored | internal/usecase/pipeline_usecase.go:226-234 | after a sync its account is due again at once if and only if the sync was stored |
| Polling.NotOncePerInterval | internal/usecase/pipeline_usecase.go:77-83 | for every n, n polls of one account fit into one interval |
| Imap.UidRoundTrip | internal/gateway/mail/imap/imap.go:454-460 | printing a UID and scanning it back gives the UID for every 32-bit number, and 0 beyond |
| Imap.FetchMessages | internal/gateway/mail/imap/imap.go:297-313 | keeps exactly the readable messages past LastUID, in order |
| Imap.Fetch | internal/gateway/mail/imap/imap.go:231-263 | after a new UIDVALIDITY keeps everything readable, otherwise everything readable past the stored UID, and leaves the cursor at the highest UID delivered under the current UIDVALIDITY |
| Imap.KeptInOrder | internal/gateway/mail/imap/imap.go:297-313 | messages are kept in the order the server sent them |
| Imap.FirstRunReads | internal/gateway/mail/imap/imap.go:247-288 | a first run reads exactly what is readable among the newest messages, 200 of them unless 1 to 500 are asked for |
| Imap.RenumberingStartsOver | internal/gateway/mail/imap/imap.go:236-241 | after the server renumbers, the next poll is a first run whatever the cursor was |
| Imap.PollCompleteIff | internal/gateway/mail/imap/imap.go:280-295 | a poll delivers every readable message past the cursor if and only if the cursor has started or the first-run limit leaves nothing readable out |
| Imap.NeverTwice | internal/gateway/mail/imap/imap.go:231-313 | over all appends, expunges, renumberings and polls the cursor never goes back and no UID is delivered twice under one UIDVALIDITY |
| Imap.ExactlyOnce | internal/gateway/mail/imap/imap.go:231-313 | once LastUID has started under the current UIDVALIDITY, a readable message still present at the next poll is delivered by it, and once only, for ever |
| Sync.InvStep | internal/usecase/pipeline_usecase.go:250-366 | every step of every overlapping sync, and of the queue beside them, keeps the dedupe and expansion invariants |
| Sync.QueueIsQueueWork | internal/usecase/dispatcher_usecase.go:49-259 | every step of the queue machine but scheduling a first run adds no first occurrence and deletes no row, which is what the sync machine takes the queue to do |
| Sync.FirstRunMeans | internal/usecase/pipeline_usecase.go:349-359 | a first run is pending for occurrence 1, due 1000 ms per second of delay from now, with three attempts |
| Sync.ReadsEnabled | internal/usecase/pipeline_usecase.go:336-343 | a match is expanded with the events enabled for its own watcher when they are read |
| Sync.RecordedOnceExpandedOnce | internal/usecase/pipeline_usecase.go:250-366 | a (watcher, message) pair is recorded once, matches_created sums to the rows, and an idle system has a first run for exactly the events enabled when the match was expanded |
| Sync.RereadIsHarmless | internal/repository/matched_email_repository.go:20-33 | recording a pair that is already there, at any later time, changes nothing |
| Pipeline.MatchTable.CreateIfNew | internal/repository/matched_email_repository.go:20-33 | inserts and reports true exactly when the pair is new |
| Pipeline.Worker.RecordMatch | internal/usecase/pipeline_usecase.go:293-331 | a new match stamps the watcher's row and bumps its counter by one, a duplicate does neither |
| Pipeline.Worker.ScheduleEvents | internal/usecase/pipeline_usecase.go:333-366 | inserts occurrence 1 for each enabled event |
| Pipeline.Worker.Evaluate | internal/usecase/pipeline_usecase.go:250-291 | the watcher loop does what the store function says and counts the rows it added |
| Pipeline.Worker.SyncMessages | internal/usecase/pipeline_usecase.go:216-224 | the message loop does what the store function says; matches_created is the growth of the table |
| Pipeline.FirstRunsWritten | internal/usecase/pipeline_usecase.go:333-366 | a new match gets one pending run per enabled event, each due after its own delay, and no other row changes |
| Pipeline.SyncRecordsExactly | internal/usecase/pipeline_usecase.go:216-291 | a sync adds exactly the pairs whose watcher fires on some fetched message, and keeps the rest |
| Schedules.SyncSchedulesExactly | internal/usecase/pipeline_usecase.go:250-366 | a sync schedules occurrence 1 of every event enabled for the watcher of each match it records, and nothing else |
| Pipeline.FiresIff | internal/usecase/pipeline_usecase.go:255-271 | a watcher fires exactly on messages not older than watch_from, a cooldown after the last recorded match, that pass the filters |
| Pipeline.CoolingWatcherRecordsNothing | internal/usecase/pipeline_usecase.go:260-266 | a watcher that cools down throughout a sync records nothing in it |
| Pipeline.SyncAgainIsIdle | internal/usecase/pipeline_usecase.go:250-291 | evaluating messages whose pairs are all recorded changes neither table |
| Pipeline.CooldownIsPerSync | internal/usecase/pipeline_usecase.go:250-291 | for a watcher not cooling down when the sync starts, a pair is recorded if and only if it was before or some fetched message with that id passes watch_from and the filters, whatever the cooldown |
| Pipeline.CooldownBrokenIff | internal/usecase/pipeline_usecase.go:250-291 | one sync records two pairs of a watcher closer together than its cooldown if and only if two messages, each the first of its id to fire an unrecorded pair, are evaluated that close |
| Pipeline.QuickSyncBreaksCooldownIff | internal/usecase/pipeline_usecase.go:250-291 | for a sync shorter than the cooldown: if and only if two messages with different ids pass whose pairs are new |
| Pipeline.TwoAtOnce | internal/usecase/pipeline_usecase.go:260-266 | two messages of one fetch, recorded in the same millisecond against an hour's cooldown |
| Pipeline.SyncIsItsSteps | internal/usecase/pipeline_usecase.go:216-366 | whatever the loops do is a legal run of the overlapping-syncs machine |
| Sessions.CoherentStep | internal/usecase/user_usecase.go:84-147 | every operation keeps each cached answer equal to what the rows say of its session and user |
| Sessions.CacheAgreesIff | internal/usecase/user_usecase.go:84-147 | the cached answer is the database's answer if and only if it is not an entry that outlived its session, and no token is accepted at or after expiry + TTL |
| Sessions.DatabaseAnswers | internal/usecase/user_usecase.go:92-122 | the database accepts exactly the unrevoked, unexpired sessions of active users and forbids exactly those of suspended ones |
| Sessions.AcceptedMeans | internal/model/converter/user_converter.go:22-44 | in every reachable state an accepted request, cached or not, gets its session's user with the email and roles as they stand now, and the impersonating admin exactly when there is one |
| Sessions.IssuedSessions | internal/usecase/admin_usecase.go:266-330 | a login is good for its lifetime as its own user, an impersonation for half an hour as the target in the admin's name; no other session changes |
| Sessions.RevocationTouches | internal/repository/user_session_repository.go:29-63 | a revocation stamps and evicts exactly the unrevoked sessions it is meant for, and nobody else's |
| Sessions.VerifyCaches | internal/usecase/user_usecase.go:84-147 | verifying caches an acceptance until now + TTL and nothing else; a hit changes nothing |
| Sessions.OffMeansOff | internal/gateway/cache/cache.go:46-57 | with a TTL of zero or less nothing is ever cached |
| Sessions.LogoutEvictsTheRightKey | internal/usecase/user_usecase.go:380-405 | the session a request was verified with is the one its logout evicts; afterwards the token is refused |
| Sessions.RevokeAllRefusesAtOnce | internal/usecase/user_usecase.go:521-534 | a suspension, role change or password change refuses every token the user held |
| SessionRace.RevocationTakesEffect | internal/usecase/user_usecase.go:92-144 | with lookups, reads and cache writes interleaved freely: with the cache on no acceptance at or after revocation + TTL + the longest request, with it off none after revocation + the longest request; none at or after expiry plus that slack |
| SessionRace.ImmediateIff | internal/usecase/user_usecase.go:92-144 | once a session is revoked and evicted it is refused from then on, in every continuation, if and only if no request that found it active is still in time to answer |
| SessionRace.RevokedTokenStillAccepted | internal/usecase/user_usecase.go:92-144 | that bound is attained to the millisecond, cache on or off |
| SessionStore.Store.CacheSetEntry | internal/gateway/cache/cache.go:54-71 | does nothing when the cache is off, else stores until now + TTL |
| SessionStore.Store.CacheDelete | internal/gateway/cache/cache.go:73-90 | removes exactly the listed keys |
| SessionStore.Store.Revoke | internal/repository/user_session_repository.go:33-37 | stamps the one unrevoked session with that id |
| SessionStore.Store.RevokeAllForUser | internal/repository/user_session_repository.go:42-63 | revokes the user's live sessions and returns exactly their hashes |
| SessionStore.Store.Verify | internal/usecase/user_usecase.go:84-147 | answers from the cache, then from the database, and caches only an acceptance |
| SessionStore.Store.Logout | internal/usecase/user_usecase.go:380-405 | is the machine's logout step |
| SessionStore.Store.RevokeSession | internal/usecase/user_usecase.go:421-449 | finds the caller's own session only, and evicts that session's key |
| SessionStore.Store.RevokeAllSessions | internal/usecase/user_usecase.go:521-534 | revokes in the database and evicts exactly the hashes that revoked |
| SessionStore.Store.ChangePassword | internal/usecase/user_usecase.go:327-378 | a new password revokes every session, any other edit none |
| SessionStore.Store.UpdateUser | internal/usecase/admin_usecase.go:165-222 | roles change, and sessions with them, only if all requested roles exist and none is named twice |
| SessionStore.FoundRolesCount | internal/usecase/admin_usecase.go:193-196 | comparing the number of roles found with the number requested is the test "all known and none twice" |
| SessionStore.Store.SetUserStatus | internal/usecase/admin_usecase.go:224-264 | a suspension revokes every session, a reactivation none |
| SessionStore.Store.IssueSession | internal/usecase/user_usecase.go:281-301 | a new session under its token hash, nothing else |
| SessionStore.Store.Impersonate | internal/usecase/admin_usecase.go:266-330 | refused for oneself, from an impersonated session and for an unknown user; otherwise a marked thirty-minute session |
| RateLimit.Limiter.Allow | internal/gateway/cache/rate_limiter.go:41-69 | one hit counted; allowed exactly on the first hit of a window or within the limit; a refusal says when the window ends; any limit and any window |
| RateLimit.AtMostTheLimitPerWindow | internal/gateway/cache/rate_limiter.go:14-20 | the calls allowed in the current window are exactly min(hits, max(1, limit)) |
| RateLimit.AtMostTwiceTheLimit | internal/gateway/cache/rate_limiter.go:14-20 | for every trace of calls, at most 2 limit - 1 are allowed in any half-open interval as long as the window |
| RateLimit.LimitMetIff | internal/gateway/cache/rate_limiter.go:41-69 | the limit per window holds for every trace if and only if it is at least 1 |
| RateLimit.SeamIsReached | internal/gateway/cache/rate_limiter.go:14-20 | for every limit from 1 up and every window over a millisecond some trace has 2 limit - 1 calls allowed in one window length |

## Left out

- The unit of interleaving is a transaction or a single row write: Retry's check and save, Ack's read and save, and each account writer's read and save are one step each.
- Crashes, failing database writes after a claim, and Redis outages with their fail-open paths are assumed not to happen.
- One millisecond clock is shared by all processes and never goes back.
- Dispatcher.Worker.Execute: takes one clock reading for the end of an execution where the code takes two, and the deliveries and the save of one execution are one step of the machine.
- Dispatcher.Worker.Claim: uses one clock reading for the whole batch where the code takes one per row; only started_at depends on it.
- Dispatcher.RunTable.Save: the columns no protocol reads (user id, result, config snapshot, display text) are not modelled.
- Bounds.AttemptsAreSpaced: is about attempts 1 to 29, more than any run the code schedules has; later ones need a max_attempts the code does not write (Bounds.ColumnLimitIff).
- Bounds.OccurrenceBound: the multiplication of an interval by a second is taken in unbounded integers; the column's width keeps it far inside int64.
- The bounded worker pool of a batch is covered by free interleaving; its size limit and the per-item deadline are not modelled.
- Watcher-event test executions, which insert occurrences from 1000 up, and cron recurrence, which the code never expands.
- ReverifyDue: its claim stamp is undone by its own failure save, so it excludes nobody.
- Renewal.SpendsTheStoredToken: assumes, besides the lock's time to live, token lifetimes and hold times, that saves are harmless in the exact sense of Renewal.SaveHarmsIff; the code itself makes no such check.
- Renewal.OneExchangePerExpiry: assumes that no caller saves an earlier expiry over one still ahead; the code itself makes no such check, and Renewal.StaleSaveDoublesExchange shows what follows.
- Renewal.SaveHarmsIff: is about saves made between critical sections; for a save during another worker's critical section there is the sufficient condition of Renewal.SpendsTheStoredToken, and Renewal.SaveUnderGrantIsHarmless.
- Renewal.StaleSaveHarmsIff: the same, and so is Renewal.SaveDoublesIff.
- RateLimit.Limiter.Allow: gives the time to the end of the window to the millisecond; the code returns Redis's TTL, which is in whole seconds, or the whole window when Redis has no answer.
- SessionStore.Store.SetUserStatus: the pausing of a suspended user's watchers is not modelled.
- SessionStore.Store.UpdateUser: the name edit is not modelled.
- Polling.NoMailboxTwiceAtOnce: is about pollers alone; manual syncs, account edits and token renewals also write the row and are not part of that machine.
- Imap.ExactlyOnce: is about one folder per account, with the stored cursor fed back each time; the folder is taken from the first watcher, and changing it reuses the cursor.
- The IMAP connection, MIME parsing, channel sends and the OAuth provider are an arbitrary mailbox, an arbitrary answer, and success or failure.
- The filter matcher is an arbitrary predicate of watcher and message.
- Pipeline.Worker.Evaluate: takes one clock reading per message and lets every write succeed; the descriptive columns are not modelled.
- Deleting watchers, events, accounts or users, and the rows that go with them.
- Tokens.EditCredentials: covers the credential merge of an account update; display name, poll interval, requested status and connection settings are not modelled.
- Tokens.Reconnect: covers a mailbox that already exists; the first consent creates a row and has nothing to merge.
- Encryption, password hashing, token hashing and JSON: credentials are a record, a token hash is an opaque key, a cached value reads back as written.
- SessionStore.Store.ChangePassword: the stored password, name and timezone do not appear; last_used_at and the reset link are not modelled.
- Audit log, pagination, dashboards, health checks, seeders and HTTP plumbing: no state of their own that a protocol depends on.
