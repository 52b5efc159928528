# Verification of the Jira bot's core

A Dafny model of the parts of the bot where state, concurrency or arithmetic can go wrong, and proofs
of what they promise. `dafny verify dfyconfig.toml` checks every module.

| module | what it models |
|---|---|
| `TokenLease`, `TokenRuns`, `LeaseResults` | leasing and refreshing Jira tokens: any number of interleaved calls, the per-user mutex, the user store, and an authorization server that may rotate refresh tokens (section 6 of RFC 6749) |
| `CalendarExpander`, `CalendarFeed`, `CalendarEventRepo`, `CalendarPoller`, `CalendarFetches`, `CalendarNotes` | calendar instances and overrides, the durable rows, and the decisions "new", "changed", "reminder" over runs of poll cycles and restarts |
| `ChangeMerge`, `ChangePoller` | merging changelog items into net changes; one poll of a user's subscriptions and the map of pending notifications |
| `BatchWindow`, `BatchContents`, `PollSends`, `PollCoverage`, `SharedChat`, `PollNetChange`, `DeliveryOrder`, `PollTicks` | whole runs of the change poller: when a notification leaves, what it holds and whether it is sent, which entries are handed over, what two subscriptions in a chat do to each other, what the message says, what the order of a changelog does to it, and why the code's ticks are such runs |
| `WebhookResync`, `ResyncReport` | reconciling Jira's webhook list with the stored registrations |
| `WebhookQueue` | the webhook ingress queue, its dispatcher, worker pool and shutdown |
| `RateLimiter`, `DedupGuard`, `ConversationState` | time-based stores with background eviction |
| `NotificationKeys` | the string keys behind the structured ones of the other modules |
| `TelegramCap`, `SplitMessage`, `Markdown` | UTF-16 capping (sections 2.1 and 2.2 of RFC 2781), message splitting, escaping |
| `FlowMetrics` | time in hold and flow efficiency |
| `Strings`, `Wrappers` | shared string functions and `Option` |

Code that updates state is a class or a loop, proved against functions on values; what the source
promises is then proved about those functions, over whole runs. Concurrent code is an interleaved step
system, and the sequential code of one call or loop is proved to be one of its runs (`Reaches`).

Clocks, random values, network answers and store failures are parameters. There is one clock, which
never runs backwards and is shared with Jira; times are integers.

## Where the code does not do what one might expect

- A refresh can present a rotated-out token, but only after an earlier rotation of the same user was
  lost, by a lost answer or a failed save: `TokenLease.RefreshPresentsLiveToken` is an if-and-only-if, and
  `TokenRuns.LostAnswerStrandsTheToken` gives such a run.
- A refresh under way can undo a disconnect, and then leaves the user with tokens and no site
  (`TokenRuns.DisconnectLastsIff`, `TokenRuns.RefreshUndoesDisconnect`).
- A notification is out of the pending map when the duplicate guard is asked, and is lost with its changes
  if a message for the same chat and issue went out within the guard's window. That never happens only if
  the window is no longer than the batch window; the programs set it to three of them
  (cmd/subscription-svc/main.go:167; `PollSends.SentIff`, `PollSends.NeverLosesIff`).
- A message skips the user's own changes, so it can report a move of a field that reads the same before and
  after (`PollNetChange.OwnEntriesAreHarmlessIff`, `PollNetChange.UndoneChangeIsReported`).
- Until a first cursor is stored, a failed search loses entries (`PollCoverage.EntryIsHandedOverIff`,
  `PollCoverage.FailuresBeforeTheFirstCursorLose`); two subscriptions in one chat can hide a change
  (`SharedChat.DropIsALossIff`, `SharedChat.SharedChatLosesAChange`).
- Nothing sorts a changelog, and merging changes and summing hold time both depend on its order; when
  the order is harmless is said by `ChangeMerge.ReversalIsHarmlessIff` for one window,
  `DeliveryOrder.OrderIsHarmlessIff` over runs of polls, and `FlowMetrics.OrderIsHarmlessIff`.
- `sumHoldHours` stops counting at a change from one hold status to another
  (`FlowMetrics.HoldSumMeasures`, `FlowMetrics.HoldToHoldStops`).
- The silence about the backlog of a newly set calendar ends with the first recorded attempt, even a failed
  one, and lasts on when a successful one is not recorded; the mark is that of the moment the tick listed the
  users (`CalendarFetches.NewNoteIff`, `CalendarFetches.ListedBy`). A horizon beyond 89 days can announce an
  event twice (`CalendarFetches.AnnouncesOnceIff`).
- Evicting rate-limit buckets shows when the burst is below one (`RateLimiter.EvictionInvisibleIff`), and the
  admission bound fails when neither burst nor rate reaches one (`RateLimiter.AdmissionsBoundedIff`).
- An ORDER BY survives sanitizing unless the first one has a space on either side
  (`WebhookResync.ClauseIsStrippedIff`); the legacy escape
  round-trips on part of the texts only (`Markdown.LegacyRoundTripIff`).
- Events accepted after the drain found the queue empty are acknowledged and never processed
  (`WebhookQueue.ReturnMeansProcessed`, `WebhookQueue.LateEventStays`).

## Model

| member | source | states |
|---|---|---|
| `TokenLease.OneRefresherPerUser` | internal/identity/provider.go:81-151 | in every reachable state of any number of interleaved leases, at most one call per user is between taking and releasing that user's mutex |
| `TokenLease.TokenRun` | internal/identity/provider.go:95-168 | invariant of every run: stored tokens, re-read copies and tokens about to be saved stand in a fixed relation to the live, issued and rotated-out tokens of the server |
| `TokenLease.RefreshPresentsLiveToken` | internal/identity/provider.go:117-151 | a refresh presents the live refresh token, and never a rotated-out one, exactly when no earlier rotation for that user was lost (answer lost or save failed); the claim "refresh races are impossible" of README.md:144 in its exact form |
| `TokenLease.RefreshRate` | internal/identity/provider.go:108-151 | if every granted lifetime is at least `life` and every effective TTL at most `ttl` < `life`, saved refreshes of one user inside any stretch of `span` seconds number at most 1 + span / (life - ttl), however many callers there are |
| `TokenRuns.GrantsAreAccounted` | internal/identity/provider.go:117-151 | in every run each refresh the server grants is saved, fails to be saved, or is about to be |
| `TokenRuns.GrantRate` | internal/identity/provider.go:108-151 | under the same bounds, granted refreshes of one user between two moments number at most 1 + (to - from) / (life - ttl), plus those among them whose save fails |
| `TokenRuns.LostAnswerStrandsTheToken` | internal/identity/provider.go:134-151 | from every initial world with a connected user whose token is stale there is a run in which the first answer is lost and the next lease presents the rotated-out token |
| `TokenRuns.DisconnectLastsIff` | internal/storage/user_repo.go:170-190 | a disconnect lasts over every later run exactly when, at that moment, no call that has re-read the user under the mutex can still store tokens: it holds some, or the refresh token it read is live; storing does not look whether the user is still connected |
| `TokenRuns.OneCanStore` | internal/identity/provider.go:81-151 | at most one call can undo a disconnect |
| `TokenRuns.RevivedWithoutSite` | internal/storage/user_repo.go:428-446 | nothing that calls do gives a user without cloud, site and account one again: so whoever a refresh connects again after a disconnect has none |
| `TokenRuns.RefreshUndoesDisconnect` | internal/identity/provider.go:117-151 | from every initial world with a connected user whose token is stale, such a disconnect and the run that undoes it |
| `TokenLease.LeaseOutlivesTtl` | internal/identity/provider.go:95-168 | every successful lease, cached or refreshed, outlives the start of its call by 60 seconds and by the TTL asked for, unless the server granted this very call a lifetime no longer than that |
| `LeaseResults.LeaseIsGenuine` | internal/identity/provider.go:95-168 | in every run a successful lease returns the access token and expiry that the store held for this user at the start, or that the server granted to a refresh of this user since; and the cloud, site and account of this user, empty after a disconnect |
| `LeaseResults.StoreIsGenuine` | internal/storage/user_repo.go:170-190 | the same of what the store holds for every connected user |
| `LeaseResults.OwnGrantIsReturned` | internal/identity/provider.go:132-168 | a call is granted tokens at most once; if it succeeds after that it returns these, and it fails after that only when they could not be saved |
| `LeaseResults.ErrorIff` | internal/identity/provider.go:95-151 | in every run a finished lease has failed with an error exactly when its own reason occurred: no user named, a read or the save failed, a read found nobody connected, the refresh token refused, the refresh failed or its answer lost |
| `LeaseResults.RefreshOnlyWhenStale` | internal/identity/provider.go:108-132 | a call asks for the mutex only when the token it read would not outlive 60 seconds or the TTL asked for, and the server only when the one it re-read would not either |
| `TokenLease.CallsAdvance` | internal/identity/provider.go:95-168 | every action of a call lowers its rank and no other action touches it, so a call takes at most nine actions |
| `TokenLease.SomeCallCanAct` | internal/identity/provider.go:95-168 | no deadlock: while some lease is unfinished, some call can act |
| `TokenLease.LocalProvider.Lock` | internal/identity/provider.go:81-90 | one mutex per user: found in the table or put there, and the table otherwise unchanged |
| `TokenLease.LocalProvider.Lease` | internal/identity/provider.go:95-168 | the code of one lease, statement by statement, is a run of the protocol that finishes the call with the returned result and leaves the mutexes as they were |
| `TokenLease.LocalProvider.LeaseLocked` | internal/identity/provider.go:117-151 | the critical section is a run of the protocol from the re-read to the point before unlocking |
| `TokenLease.LocalProvider.RefreshAndSave` | internal/identity/provider.go:132-151 | refresh and save are protocol actions, with each error mapped to its own result |
| `CalendarExpander.Expand` | internal/calendar/expander.go:34-78 | an override yields nothing, a single event itself when inside the range (both ends included), a recurring one its occurrences less the excluded dates, in order; a bad rule is an error |
| `CalendarExpander.KeptSnoc` | internal/calendar/expander.go:65-76 | excluding dates keeps or drops each occurrence by itself |
| `CalendarExpander.LastOverride` | internal/calendar/expander.go:103-117 | the override used is the last one in the feed for that UID and recurrence second |
| `CalendarExpander.CollectInstances` | internal/calendarpoller/poller.go:199-223 | partitions a feed into masters and overrides, expands the masters, skips those that do not expand, and applies the overrides |
| `CalendarFeed.CollectedIff` | internal/calendar/expander.go:34-142 | a feed leads to an instance exactly when an event of it takes place then (a single one inside the window, a recurring one where its rule says and no exclusion) and the last override for that event and time says so, or without one the event itself, lasting as long as it does |
| `CalendarExpander.ApplyOverrides` | internal/calendar/expander.go:103-142 | the index map and the loop give a start-sorted permutation of the naive replacement, and the list itself when there are no overrides; the count is kept |
| `CalendarEventRepo.EventRepo.UpsertState` | internal/storage/calendar_event_repo.go:104-162 | inserts or refreshes one row, keeps its flags, reports created, changed and the previous content, and leaves every other row alone |
| `CalendarEventRepo.EventRepo.MarkReminderSent` | internal/storage/calendar_event_repo.go:189-198 | raises the reminder flag of that row and refreshes its seen-at time; every other row stays |
| `CalendarEventRepo.EventRepo.MarkNotifiedNew` | internal/storage/calendar_event_repo.go:204-213 | raises the announced flag of that row and refreshes its seen-at time; every other row stays |
| `CalendarEventRepo.EventRepo.DeleteStaleByUser` | internal/storage/calendar_event_repo.go:218-224 | drops exactly this user's rows that start before the cutoff |
| `CalendarEventRepo.EventRepo.DeleteAllByUser` | internal/storage/calendar_event_repo.go:228-231 | drops exactly this user's rows |
| `CalendarPoller.InvHolds` | internal/calendarpoller/poller.go:239-346 | invariant of every run of cycles, restarts, removals, URL changes and row expiry, with any store or send failing: what was sent is remembered by a row for as long as it matters; for reminders whatever the configuration, for announcements if the horizon fits |
| `CalendarPoller.ReminderAtMostOnce` | internal/calendarpoller/poller.go:308-334 | whatever the configuration, of the reminders sent for one (user, UID, start) since the calendar was last removed only the last can have had its flag written; so at most one when flag writes succeed |
| `CalendarPoller.ReminderExactlyOnce` | internal/calendarpoller/poller.go:239-346 | with no failure, exactly one reminder if some cycle saw the instance in its reminder window, else none, across restarts and feed edits |
| `CalendarNotes.RemindedOnceIff` | internal/calendarpoller/poller.go:225-334 | in a run in which nothing fails and the calendar stays, exactly one reminder for an instance if some step looks at it in a cycle that began before its start and after start less the minutes set by the user, or by default; none otherwise |
| `CalendarNotes.RowIsLastSeen` | internal/storage/calendar_event_repo.go:104-231 | in every run, with any failures, the store has a row exactly when some step stored the instance and nothing has removed it since (stale for a week, wiped, unseen for 90 days), and it holds what the last such step saw |
| `CalendarNotes.NoteIff` | internal/calendarpoller/poller.go:239-355 | in every run, with any failures, a notification of any kind goes out at exactly the steps told from the run alone: new, when not in the store, inside the horizon and no first fetch; changed, when what is in the store looks different; a reminder, when due and none was sent and noted since the row is there; and the guard let none of this kind through within its window since the last restart |
| `CalendarPoller.NewAtMostOnce` | internal/calendarpoller/poller.go:274-297 | if the horizon fits (at most 89 days and a second, rows being kept for 90 days and no cycle lasting over a day), an event is announced as new at most once since its calendar was last removed, whatever fails |
| `CalendarFetches.AnnouncesOnceIff` | internal/calendarpoller/poller.go:274-297 | no run announces an event twice without a removal of its calendar in between exactly when the horizon fits; beyond it a run is given in which the row expires unseen and the event counts as new again |
| `CalendarPoller.MovedEventIsNewRow` | internal/calendarpoller/poller.go:239-306 | an event that moves arrives as a new row: no "changed" notification ever reports a new start |
| `CalendarFetches.FetchedMeansRecorded` | internal/calendarpoller/poller.go:182-346 | in every run the last-fetch mark of a user is set exactly when an attempt, failed or not, was recorded after its feed was last set or removed |
| `CalendarFetches.NewNoteIff` | internal/calendarpoller/poller.go:147-297 | in every run a "new event" goes out at a step exactly when it sees the event for the first time inside the horizon, in a cycle of a tick that found an attempt recorded as it listed the user, with guard and messenger letting it pass |
| `CalendarFetches.ListedBy` | internal/calendarpoller/poller.go:147-172 | a user still to be polled was listed by a tick and carries the last-fetch mark of that moment, whatever was set or removed since |
| `CalendarPoller.Poller.Allow` | internal/calendarpoller/poller.go:349-355 | the guard grants a kind and instance at most once per window, and always without a guard |
| `CalendarPoller.Poller.ListUsers` | internal/calendarpoller/poller.go:147-172 | a tick reads the users, each with whether it has a last-fetch mark |
| `CalendarPoller.Poller.PollInstance` | internal/calendarpoller/poller.go:239-334 | the code for one instance is the `See` step of the state machine |
| `CalendarPoller.Poller.PollUser` | internal/calendarpoller/poller.go:225-347 | one poll of a user over the collected instances, in order, is a run of the state machine, up to the stale deletion and the last-fetch mark, either of which may fail |
| `CalendarPoller.Poller.PollFeed` | internal/calendarpoller/poller.go:177-347 | the whole of one poll: the instances of the parsed feed are collected, and polling them is a run of the state machine |
| `DedupGuard.AppendInt64` | internal/notifydedup/dedup.go:67-83 | the digit buffer loop appends the signed decimal of every int64; the smallest one renders as "-" |
| `DedupGuard.DecimalReadsBack` | internal/notifydedup/dedup.go:67-83 | reading the rendered digits gives the number back |
| `DedupGuard.FormatKeyIsInjective` | internal/notifydedup/dedup.go:58-65 | different chats or issues never share a key, the smallest int64 included |
| `DedupGuard.Guard.Allow` | internal/notifydedup/dedup.go:45-56 | checks and records one key under its own two clock readings |
| `DedupGuard.Guard.Cleanup` | internal/notifydedup/dedup.go:85-103 | drops exactly the entries that have run out |
| `DedupGuard.MapMeansRecentlyGranted` | internal/notifydedup/dedup.go:45-56 | in every run the map answers exactly "was this chat and issue granted within the window" |
| `DedupGuard.AllowIsPerKey` | internal/notifydedup/dedup.go:45-56 | a call is granted exactly when no earlier grant for the same chat and issue is younger than the window |
| `DedupGuard.GrantsAreSpaced` | internal/notifydedup/dedup.go:45-56 | two grants for one chat and issue are at least the window apart |
| `DedupGuard.CleanupIsInvisible` | internal/notifydedup/dedup.go:85-103 | a cleanup put in anywhere in a run changes no answer |
| `NotificationKeys.PendingKeyIsInjective` | internal/poller/poller.go:326-330 | the "chat:issue" string key tells all chats and issues apart |
| `NotificationKeys.CalendarKeyIsInjective` | internal/calendarpoller/poller.go:349-355 | the guard key of a calendar notification tells user, kind, UID (colons included) and start apart |
| `ChangeMerge.MergeChanges` | internal/poller/poller.go:536-555 | the merge loop is the fold of one item at a time |
| `ChangeMerge.MergedSpansFirstToLast` | internal/poller/poller.go:536-555 | exactly the named fields of a stream have a record, from the first item's old side to the last item's new side |
| `ChangeMerge.MergeSplits` | internal/poller/poller.go:536-555 | however a stream is split over calls, the result is the same |
| `ChangeMerge.RedeliveryChangesNothing` | internal/poller/poller.go:536-555 | delivering any tail of the stream again changes nothing |
| `ChangeMerge.OverlapMergesOnce` | internal/poller/poller.go:536-555 | two overlapping windows of one stream merge like their union |
| `ChangeMerge.RenderChanges` | internal/poller/poller.go:609-638 | the section has one line per record with a net change, in some order |
| `ChangeMerge.RenderedIffNetChange` | internal/poller/poller.go:609-638 | a field has a line exactly when its first and last displayed values differ, and then one of the three forms with those values |
| `ChangeMerge.ShownIff` | internal/poller/poller.go:536-638 | the same in terms of the items: the field is its name or without one its identifier, a displayed value is its text or without one the raw value |
| `ChangeMerge.LinesAgreeIff` | internal/poller/poller.go:609-638 | two streams show the same line for a field exactly when neither shows one, or the field starts and ends with the same displayed values in both |
| `ChangeMerge.ReversalIsHarmlessIff` | internal/poller/poller.go:536-638 | a stream and its reverse show the same line for a field exactly when neither shows one, or the first and the last item of the field go from the same displayed value to the same displayed value |
| `ChangeMerge.NewestFirstHidesTheChange` | internal/poller/poller.go:536-638 | an input that fails it: A to B to C read newest first shows nothing |
| `ChangePoller.RecentChanges` | internal/poller/poller.go:923-953 | collects the items strictly after the cursor by anyone else, skipping unparsable timestamps, and the distinct authors |
| `ChangePoller.AuthorsAreThoseOfTheWindow` | internal/poller/poller.go:931-950 | the authors are exactly the accounts behind the counted entries, each once |
| `ChangePoller.Poller.AddPending` | internal/poller/poller.go:465-556 | creates or merges one notification; nothing when there is neither a change nor a mention |
| `ChangePoller.Poller.FlushPending` | internal/poller/poller.go:563-580 | takes out and lists, each once, exactly the notifications that have waited for the batch window |
| `ChangePoller.Poller.FlushAllPending` | internal/poller/poller.go:586-601 | takes out and lists everything |
| `ChangePoller.Poller.PollUser` | internal/poller/poller.go:228-368 | one poll of a user's subscriptions: stale and mention filters, per-chat duplicates, early stop on an invalid token, cursor updates |
| `ChangePoller.Poller.LoadAndPoll` | internal/poller/poller.go:208-228 | the subscriptions are loaded with the cursors of the store and polled |
| `PollTicks.RunTick` | internal/poller/poller.go:152-226 | one turn of the main loop: every user is polled against the one pending map, then it is flushed |
| `PollTicks.PollIsGathered` | internal/poller/poller.go:228-368 | for a subscription alone in its chat, a poll of all its user's subscriptions leaves of an issue and of the cursor exactly what the run of `PollCoverage` says |
| `PollTicks.TickIsGathered` | internal/poller/poller.go:188-226 | the same for a tick over all users, or one that does not get to that user |
| `PollTicks.TicksFollowPolls` | internal/poller/poller.go:152-226 | so, from an empty start, every run of ticks over all users, in which the subscription stays alone in its chat among them, is for that issue and subscription one of the runs the results on coverage and net change are about |
| `BatchWindow.EachLeavesOnce` | internal/poller/poller.go:492-601 | births of a notification equal its departures plus one if it still waits: each leaves the map exactly once |
| `BatchWindow.ShutdownEmptiesTheMap` | internal/poller/poller.go:586-601 | after the final flush the map is empty and everything that came in was handed over |
| `BatchWindow.ClockIsBirth` | internal/poller/poller.go:492-515 | merges never restart the clock of a waiting notification |
| `BatchWindow.BatchIsOneStream` | internal/poller/poller.go:492-555 | a waiting notification holds the merge of all sightings since its birth as one stream, and is a mention exactly when one of them was |
| `BatchContents.BatchHolds` | internal/poller/poller.go:492-534 | a waiting notification holds the issue as last reported, exactly the comments with an identifier brought in since its birth, each in its last version, and exactly the accounts behind the changes that counted and the comments of others, each under a name it bore |
| `BatchWindow.HandedOverInTime` | internal/poller/poller.go:563-580 | with flushes at most `gap` apart it leaves within batch window plus `gap` of its first sighting |
| `BatchWindow.NoneLeavesEarly` | internal/poller/poller.go:563-580 | only shutdown hands a notification over before its window has passed |
| `BatchWindow.PollIsAdds` | internal/poller/poller.go:228-368 | a poll continues the run by sightings alone; it never takes a waiting notification out |
| `PollSends.MapRuns` | internal/poller/poller.go:563-601 | with sending in between, the pending map goes through a run of `BatchWindow` |
| `PollSends.TakenIsWhatLeaves` | internal/poller/poller.go:563-601 | what a flush passes on to sending is what leaves the map there |
| `PollSends.SentIff` | internal/poller/poller.go:563-659 | in every run a notification that left the map is let through exactly when it is a mention or some field is displayed differently before and after, and no message for its chat and issue was within the window of the duplicate guard; it is in the map no more, so otherwise it is lost |
| `PollSends.NeverLosesIff` | internal/poller/poller.go:640-659 | no run loses a notification exactly when the window of the guard is no longer than the batch window, or, with a shutdown, is not positive; otherwise a losing run is given |
| `PollSends.SendOne` | internal/poller/poller.go:603-659 | one notification: nothing to show, refused by the guard, or let through, with the guard as it is afterwards |
| `PollSends.SendReady` | internal/poller/poller.go:577-579 | the loop over what was taken out is a run of sends |
| `PollCoverage.AloneSubscriptionIsIndependent` | internal/poller/poller.go:254-349 | a subscription alone in its chat is unaffected by the user's other subscriptions: its notification changes by its own hit only |
| `PollCoverage.ReachedIff` | internal/poller/poller.go:254-281 | a poll gets to a subscription exactly when it has a query and no search before it found the token to be invalid |
| `SharedChat.SecondInChatMergesIff` | internal/poller/poller.go:322-345 | over a whole poll, with any subscriptions of other chats around, when two in one chat both find an issue the second window is merged exactly when a notification already waits or the first had something to report |
| `SharedChat.DropIsALossIff` | internal/poller/poller.go:340-367 | an entry of the dropped window created before the poll began is taken in again by a later window exactly when the cursor was not saved, and one had been stored before or the entry is still within one interval of that later poll |
| `SharedChat.SharedChatLosesAChange` | internal/poller/poller.go:322-367 | a concrete poll in which a change is dropped as a duplicate and the cursor moves past it |
| `PollCoverage.HandsOverIff` | internal/poller/poller.go:262-307 | minute-truncated query, exact timestamp filter and changelog filter together come down to one comparison with the cursor |
| `PollCoverage.EntryIsHandedOverIff` | internal/poller/poller.go:234-368 | over any run mixing failed searches and failed cursor saves, an entry by someone else that a successful search can see is handed to `addPending` exactly when a cursor was stored before, or it is younger than one interval, or a late first window is made good by the next search |
| `PollCoverage.NothingIsLostAfterACursor` | internal/poller/poller.go:438-444 | once a cursor is stored, the next successful search hands over everything created since, whatever failed in between |
| `PollCoverage.FailuresBeforeTheFirstCursorLose` | internal/poller/poller.go:438-444 | with no cursor stored, one failed search loses an entry created after the first poll |
| `PollNetChange.WindowsMerge` | internal/poller/poller.go:536-555 | in an oldest-first changelog a window merged on top of an earlier, overlapping one gives the union |
| `PollNetChange.BatchIsOneWindow` | internal/poller/poller.go:228-555 | over any run of polls whose windows overlap, for an oldest-first changelog, a notification's changes are the merge of what others than the user changed from the cursor of the poll that made it to the last successful search |
| `PollNetChange.StoredCursorOverlaps` | internal/poller/poller.go:438-444 | windows overlap whenever a cursor was stored before the notification was made, or the poll that made it stores its own and did not start late |
| `PollNetChange.GapIsMissed` | internal/poller/poller.go:438-444 | where they do not overlap, an entry in the gap has been handed over by no poll so far |
| `PollNetChange.MessageShowsNetChange` | internal/poller/poller.go:612-638 | so, under the same hypotheses, the message shows a field exactly when the old value of its first change by someone else in that window is displayed differently from the new value of the last such change |
| `PollNetChange.OwnEntriesAreHarmlessIff` | internal/poller/poller.go:923-953 | the message has the line that the whole changelog of the window would have, own entries included, exactly when neither has one or the field starts and ends alike with and without them; so always when no own entry in the window names the field |
| `PollNetChange.UndoneChangeIsReported` | internal/poller/poller.go:923-953 | an input that fails it, under all the hypotheses above: the user moves a field and someone else moves it back; it reads the same at both ends, and the message says that it moved |
| `DeliveryOrder.BatchIsItsWindows` | internal/poller/poller.go:228-555 | in whatever order the changelog is delivered and whether or not windows overlap, the changes are the merge of all windows since the notification was made, in the order of the polls |
| `DeliveryOrder.OrderIsHarmlessIff` | internal/poller/poller.go:536-638 | the messages from a changelog and from the same one reversed agree on a field exactly when neither shows it, or the old sides of the first and the last entry naming it in the first window that does, and the new sides of the last and the first entry naming it in the last such window, are displayed alike |
| `DeliveryOrder.OneEntryEachIsHarmless` | internal/poller/poller.go:536-638 | so they agree whenever those two windows name the field in one entry each |
| `WebhookResync.SanitizeIsIdempotent` | internal/jira/webhooks.go:71-77 | what is kept is trimmed, holds no " ORDER BY " in any case, and is a fixed point |
| `WebhookResync.ClauseIsStrippedIff` | internal/jira/webhooks.go:71-77 | no ORDER BY, in any case, is left exactly when the first one of the trimmed text is absent or has a space on either side |
| `WebhookResync.FilterIsKept` | internal/jira/webhooks.go:71-77 | everything before the first ORDER BY that is set off by spaces is kept as it is |
| `WebhookResync.LeadingOrderByStays` | internal/jira/webhooks.go:71-77 | so a text that starts with the clause keeps one |
| `WebhookResync.IndexByJql` | internal/jira/webhooks.go:244-253 | the index maps each wanted JQL to the first active subscription with it; "" is never wanted |
| `WebhookResync.AdoptionIsInjective` | internal/jira/webhooks.go:255-288 | one pass adopts hooks for different subscriptions, each the first active one whose JQL is the hook's own, whatever row creations fail |
| `WebhookResync.FirstPendingIsAdopted` | internal/jira/webhooks.go:255-288 | with no failure exactly the first hook of each wanted JQL that only Jira knows is adopted |
| `WebhookResync.PassShrinksPending` | internal/jira/webhooks.go:255-288 | a pass takes the head off the list of Jira-only hooks of every wanted JQL and leaves the other lists alone |
| `WebhookResync.PassesConverge` | internal/jira/webhooks.go:211-310 | after n passes the first n Jira-only hooks of each wanted JQL are taken in, until only hooks no active subscription wants are left; later passes therefore attach further hooks to a subscription that has one |
| `ResyncReport.UnmatchedIff` | internal/jira/webhooks.go:255-288 | a pass reports as unmatched, in order and once each, exactly the hooks without a row whose JQL no active subscription wants or an earlier hook that could be stored has; and as adopted exactly those without a row that are wanted, could be stored and come first among such, whatever creations fail |
| `ResyncReport.OneFateEach` | internal/jira/webhooks.go:255-288 | each of the hooks in the list is known, adopted, unmatched or could not be stored, and only one of these |
| `ResyncReport.SameHookIff` | internal/jira/webhooks.go:33-77 | for keys without white space two subscriptions want the same JQL exactly when they are about the same thing, and none exactly when a webhook cannot tell it |
| `WebhookResync.LocalWithinJira` | internal/jira/webhooks.go:290-307 | after a pass without store failures every local webhook is one of Jira's; with failures `ResyncForUser` says what stays |
| `WebhookResync.WebhookRepo.Delete` | internal/storage/webhook_repo.go:109-112 | removes exactly the row with this identifier |
| `WebhookResync.WebhookManager.Adopt` | internal/jira/webhooks.go:255-288 | the adoption loop writes one row per adopted hook, in order, and reports adopted and unmatched hooks |
| `WebhookResync.WebhookManager.DropStale` | internal/jira/webhooks.go:290-307 | deletes and reports exactly the old rows Jira no longer has, unless a deletion fails |
| `WebhookResync.WebhookManager.ResyncForUser` | internal/jira/webhooks.go:211-310 | the whole pass: the result lists, the rows afterwards, and with no failure the local identifiers that `PassesConverge` talks about |
| `RateLimiter.Limiter.Allow` | internal/middleware/ratelimit.go:76-111 | one call: creates, tops up or charges this visitor's bucket and no other |
| `RateLimiter.Limiter.Cleanup` | internal/middleware/ratelimit.go:57-74 | drops exactly the buckets idle for more than two windows |
| `RateLimiter.OneCallPays` | internal/middleware/ratelimit.go:76-111 | one call keeps the tokens in range and raises admitted plus tokens by no more than the elapsed time pays for |
| `RateLimiter.RefusedIff` | internal/middleware/ratelimit.go:76-111 | with a burst of at least one, a call is refused exactly when the bucket is empty and has not earned a whole token since it was last topped up |
| `RateLimiter.BucketAfter` | internal/middleware/ratelimit.go:94-111 | the tokens and the clock after a call, to the token: what was earned in part is kept |
| `RateLimiter.EarnedCallsAreGranted` | internal/middleware/ratelimit.go:94-111 | the first calls less than a window after the last top-up are granted, as many as there are tokens left and whole ones earned since, up to the burst |
| `RateLimiter.BurstIsWorth` | internal/middleware/ratelimit.go:94-111 | of calls made at one moment exactly that many are granted |
| `RateLimiter.AdmissionsBounded` | internal/middleware/ratelimit.go:76-111 | with a burst or a rate of at least one, over any calls (admitted + tokens - burst) * window <= max(rate, burst) * (lastReset - created) |
| `RateLimiter.AdmissionsBoundedIff` | internal/middleware/ratelimit.go:76-111 | that bound holds of every run exactly when the burst or the rate is at least one |
| `RateLimiter.TokensInRangeIff` | internal/middleware/ratelimit.go:76-111 | tokens stay between zero and the burst exactly when the burst is at least one |
| `RateLimiter.BurstAfterIdle` | internal/middleware/ratelimit.go:76-111 | a new visitor, or one idle for a window, is granted its whole burst |
| `RateLimiter.AnswersAreReference` | internal/middleware/ratelimit.go:57-111 | for a burst of at least one, with cleanups at any moments, every visitor is answered as its own never-evicted bucket would answer |
| `RateLimiter.EvictionInvisibleIff` | internal/middleware/ratelimit.go:57-111 | eviction is invisible exactly when the burst is at least one |
| `ConversationState.MemoryStateStore.Set` | internal/telegram/state.go:100-104 | stores step, data and time for this chat and user only |
| `ConversationState.MemoryStateStore.Get` | internal/telegram/state.go:106-124 | answers the stored step and a copy of the data unless older than the limit |
| `ConversationState.MemoryStateStore.CleanExpired` | internal/telegram/state.go:88-98 | drops exactly the expired entries |
| `ConversationState.ReadIsLastWord` | internal/telegram/state.go:88-130 | in every run with sweeps at any moments a read answers the last operation about that very chat and user |
| `ConversationState.OthersDoNotMatter` | internal/telegram/state.go:88-130 | sweeps and operations on other chats or users never change an answer |
| `ConversationState.ReadUnknown` | internal/telegram/state.go:106-124 | a chat and user nothing was said about read as empty |
| `TelegramCap.DecodeEncode` | cmd/telegram-svc/main.go:239-254 | UTF-16 decoding undoes encoding for every sequence of Unicode scalar values |
| `TelegramCap.CutFallsBetweenScalars` | cmd/telegram-svc/main.go:244-249 | stepping back from a high surrogate puts the cut between two scalars, after the longest prefix that fits |
| `TelegramCap.CapKeepsLongestPrefix` | cmd/telegram-svc/main.go:231-255 | at most 4096 units; a text that fits is untouched; a longer one becomes its longest prefix that leaves room for the ellipsis and loses its parse mode |
| `SplitMessage.JoinSplit` | internal/telegram/handler_sprint.go:836-856 | joining the pieces with the separator gives the text back |
| `SplitMessage.SplitMessage` | internal/telegram/handler_sprint.go:831-872 | all parts fit the limit exactly when all lines do; no part is empty; parts and newline gaps make up the text; every break comes where the next whole section or line would have made the part too long |
| `SplitMessage.WovenKeepsText` | internal/telegram/handler_sprint.go:831-872 | with newlines removed the concatenated parts equal the text: nothing lost, added or reordered |
| `FlowMetrics.ContainsLower` | internal/telegram/handler_sprint.go:1145-1152 | case-insensitive membership |
| `FlowMetrics.HoldStatuses` | internal/telegram/handler_sprint.go:1130-1143 | the four statuses that count as hold by default, in any letter case |
| `Markdown.EscapeMarkdownV2` | internal/format/markdown.go:28-38 | the loop escapes character by character |
| `Markdown.EscapeThenStrip` | internal/format/markdown.go:28-79 | stripping undoes the V2 escape on every text, and in the escaped text each reserved character has its own backslash |
| `Markdown.StripThenEscape` | internal/format/markdown.go:28-79 | escaping undoes stripping on every well-escaped text |
| `Markdown.LegacyRoundTripIff` | internal/format/markdown.go:8-79 | the legacy escape round-trips exactly on texts with no backslash before a character that only the stripper knows |
| `FlowMetrics.SumHold` | internal/telegram/handler_kanban.go:328-353 | the two loops are the fold over the status transitions, closed at `until` |
| `FlowMetrics.RunningMeaning` | internal/telegram/handler_kanban.go:328-353 | an interval is open exactly after entering hold from outside, and the total is the time of the closed ones |
| `FlowMetrics.HoldTimeSplits` | internal/telegram/handler_kanban.go:328-353 | time in hold is the time after entering it from outside plus the time after hold-to-hold changes |
| `FlowMetrics.HoldSumMeasures` | internal/telegram/handler_kanban.go:328-353 | for ascending, chained histories the sum is the time in hold less the time after hold-to-hold changes: never more, and equal exactly when those stays are empty |
| `FlowMetrics.HoldToHoldStops` | internal/telegram/handler_kanban.go:328-353 | whole changelogs that fall short: on hold, then blocked, then taken up again counts the first stay only |
| `FlowMetrics.NewestFirstSum` | internal/telegram/handler_kanban.go:328-353 | for every ascending, chained list of transitions without hold-to-hold changes, delivered newest first: minus the time between the stays if the issue started in hold or never entered it, otherwise the measured time plus the time since the last departure if it ends outside |
| `FlowMetrics.NewestFirstHoldSum` | internal/telegram/handler_kanban.go:328-353 | the same for whole changelogs in reverse, one status change per entry |
| `FlowMetrics.OrderIsHarmlessIff` | internal/telegram/handler_kanban.go:328-353 | both orders give the same sum exactly when the issue started in hold with neither stays nor time between them, or started outside and never entered, ends in hold, or is measured at its last departure |
| `FlowMetrics.NewestFirstGoesNegative` | internal/telegram/handler_kanban.go:328-353 | a history that measures one second oldest first and minus one newest first |
| `FlowMetrics.FirstInProgressIsEarliest` | internal/telegram/handler_kanban.go:301-324 | it is the earliest move into an in-progress status, whatever the order |
| `FlowMetrics.CycleSumPositive` | internal/telegram/handler_kanban.go:429-436 | the cycle sum is positive exactly when some issue counts |
| `FlowMetrics.BlockedWithinCycle` | internal/telegram/handler_kanban.go:438-444 | blocked time never exceeds cycle time and is non-negative for ascending histories |
| `FlowMetrics.FlowEfficiency` | internal/telegram/handler_kanban.go:429-468 | -1 exactly when no issue has a cycle time; otherwise the percentage, rounded half up, of the time from earliest in-progress move to done that was not on hold (for well-recorded histories, after entering hold from outside, capped per issue); never negative, and at most 100 for ascending histories |
| `WebhookQueue.InvRun` | internal/webhook/handler.go:120-163 | invariant of every interleaving of requests, dispatcher, workers and cancellation: queue order, slot and wait-group counts, what is taken is accounted for |
| `WebhookQueue.EachEventInOnePlace` | internal/webhook/handler.go:120-163 | at every moment each accepted event is in exactly one of queue, dispatcher, worker and done, processed at most once; queue <= 100, workers <= 10 |
| `WebhookQueue.ReturnMeansProcessed` | internal/webhook/handler.go:122-163 | when `Start` returns, exactly the events accepted before the drain found the queue empty were processed, each once; later ones are still queued; no worker is left |
| `WebhookQueue.LateEventStays` | internal/webhook/handler.go:122-163 | a run that returns with an accepted, counted event still queued and never processed |
| `WebhookQueue.SealIsWhatWasAccepted` | internal/webhook/handler.go:154-163 | that count is fixed once, by the drain that finds the queue empty |
| `WebhookQueue.WorkIsBounded` | internal/webhook/handler.go:127-163 | dispatcher and workers make at most three steps and six more per accepted event |
| `WebhookQueue.SomeoneCanMove` | internal/webhook/handler.go:127-163 | no deadlock: some step is possible unless `Start` has returned or idles |
| `WebhookQueue.ShutdownCompletes` | internal/webhook/handler.go:122-163 | after cancellation, with no new events, every state leads to a return within a computed number of steps |
| `WebhookQueue.Handler.ServeEvent` | internal/webhook/handler.go:230-240 | the enqueue step never blocks: accepted at the end and counted, or turned away with nothing changed |
| `WebhookQueue.Handler.DrainQueue` | internal/webhook/handler.go:154-163 | the drain loop processes everything queued, in order, and is a run of the step system |

## Left out

- RefreshRate: counts refreshes whose tokens were saved; `GrantRate` adds those whose save fails, of which there is no bound.
- ReminderExactlyOnce: needs sends and row writes to succeed; with failures `ReminderAtMostOnce` says what remains.
- SplitMessage: for a limit of zero or more; the callers pass 4000. A text is a sequence of the units that the limit counts, which are bytes in the code.
- NewestFirstSum: for histories without hold-to-hold changes.
- LeaseOutlivesTtl: a grant shorter than the TTL may still outlive it after a wait; the exact moment of the grant is not part of the statement.
- HoldSumMeasures: for ascending, chained histories; without the chaining only `HoldSumNonNegative` holds.
- BatchIsOneWindow: for changelogs delivered oldest first and windows that overlap; for any order and windows `DeliveryOrder.BatchIsItsWindows` says what is merged, and what falls into a gap is missed (`GapIsMissed`).
- MessageShowsNetChange: about the changes made by others; how that differs from the whole changelog is `OwnEntriesAreHarmlessIff`.
- SameHookIff: for keys without white space, as Jira's are.
- EarnedCallsAreGranted: for a rate that is not negative.
- SentIff: for the in-process guard, which the poller alone asks; whether a message that it lets through is delivered is the messenger's.
- ResyncForUser: one user's rows only; expiry dates and event lists of a registration are not kept.
- Lease: the class runs one call without interruption; interleavings are the step system's.
- A user who reconnects through the login flow while a refresh is under way: the step system has a disconnect but no other writer of tokens.
- Stores, brokers, HTTP, Jira and Telegram calls: oracles that succeed or fail. MongoDB's duplicate-key races are not modelled.
- Recurrence rules, ICS and cron parsing, JSON, encryption and signatures: the occurrence list and the accept decision are inputs.
- Time zones and Jira's timestamp layouts: integer times; the time zone in which Jira reads the query's minute is taken to be the bot's.
- Searches that hit the 50-result limit: an issue within the query's bound is taken to be returned.
- `findRecentMentionComments`: its result is an input of a poll; its completeness rests on Jira's order of comments.
- `buildJQL`, `stripOrderBy` and the texts of notifications, reports, menus and prompts: would only add easy members.
- `RedisGuard` and several replicas: they rest on an external atomic operation.
- Floating point: hours are exact, the percentage is an exact fraction rounded half up.
- Letter case outside ASCII, and %q escapes other than quote and backslash.
- Sort stability: the calendar's sort is used only as far as the library promises.
- Sharing of the map passed to the conversation store's `Set` with its caller.
- A poll of a user who is unknown or not connected, which does nothing: such a user has no turn in a tick.
- Worker panics and the 30-second limit of one event's processing.
