# Game-night rotation bot: a verified model of its core

This project models the core of a chat bot that runs a weekly game night
for a guild. Every change to the turn queue ends in a refresh of the
guild's scheduled platform event and a new announcement. It also proves
properties of that model. The parts modelled are:

- **The rotation queue.** Entries are users or postponements. An entry
  has an optional user id, a skip flag, an optional link to a tracked
  platform event, and a persisted order. The queue supports these
  operations:
  - skipping past skipped entries;
  - advancing a turn: a user cycles to the tail, a postponement is dropped;
  - the event refresh that links only the head;
  - the order-renumbering write-back and the sorted reload;
  - the weekly generator of game-night instants;
  - the announcement walk that hands out game nights;
  - the add, remove, swap, skip and postpone commands.

  Both snapshots of this logic are modelled. The service snapshot is a
  `RotationList` object in `RotationService`. The system snapshot is free
  routines over a list in `RotationSystem`. The commands use the system
  snapshot.
- **The job scheduler.** It is a map from handles to timed callbacks. It
  has a growing handle counter, a one-byte transaction depth that holds
  off the wake-up signal, a halving wait with a floor, and one pass that
  fires the due jobs.
- **Event-notify bookkeeping.** Events are tracked in two ways:
  - the module keeps its own map of tracked events and a wait loop;
  - the service maps platform events to scheduler jobs, and notifies at
    most once per event.
- **The legacy timer list.** It can be cleared by type. One tick visits
  the expired timers from the back and removes each once its handler
  returns.
- **The logging core.**
  - The logger has a severity filter over the open contexts, and counters
    for warnings, errors and fatal messages.
  - Contexts may carry a footer.
  - The endpoint list initialises what it adds and disposes what it
    removes.
  - String helpers cover line prefixing, search, quoting, line-feed
    normalisation and trimming.
- **The event link codec.** It formats and parses links, and rewrites the
  attendee block of an event description.
- **The dispose-once guard.**

## How the model is expressed

- **Numbers.**
  - Time is an integer count of nanoseconds (`Instant`). The waits handed
    to the runtime are counted in 100 ns ticks.
  - Platform ids are natural numbers below 2^64 (`u64`).
  - Record keys (`Guid`) are naturals compared only for equality.
- **External calls.** What the platform, the store and the callbacks would
  answer is a parameter. This covers:
  - whether a user lookup or an event deletion throws;
  - which event id `CreateEventAsync` returns;
  - whether a channel is a text channel;
  - whether a handler, endpoint or job throws.
  - the platform's line end (`Environment.NewLine`), which the logger's
    normalisation and the attendee block of an event description use.

  An exception that escapes is the `Outcome.Threw` value. A null
  reference, where the code checks for one, is `Option.None`.
- **State.** Objects whose fields the source updates in place are classes
  with `modifies` clauses:
  - the rotation lists;
  - the document store;
  - the scheduler and its transactions;
  - the notifier maps;
  - the timer list;
  - the logger, its contexts and its endpoint collection;
  - the string builder;
  - the guard.

  Each method is tied to a specification function of the old state. The
  lemmas are about those functions.
- **Endpoint calls.** Calls into endpoints are recorded as a trace of
  `Initialize`, `Receive` and `DisposeOf` calls. This lets contracts say
  which endpoints were reached and in what order.

Points where the code behaves in a way worth stating outright:

- **Advancing a queue.** Advancing `[A, B (skipped), C]` moves the head
  `A` to the tail and then skips past `B`. It gives `[C, A, B]`, with
  `B`'s flag cleared (Services/RotationService.cs:29-51), and
  `Rotation.Advance` models that.
- **Second skip pass.** It reads the head of a list that may have become
  empty. Advancing a list whose only entry after skipping is a
  postponement therefore throws. This is modelled as the `Faulted`
  outcome, not excluded by a precondition.
- **Module completed-event handler.** It calls a system-snapshot
  `AdvanceRotation` with a signature the system snapshot does not have.
  It is modelled as the system snapshot's advance. The rotation entry
  record has no kind or order field, but the services use both. They are
  modelled as fields.
- **Service `Created` handler.** It builds its record with the guild id
  and the event id in swapped positions. It stores the raw start time,
  and the update handler compares that with start minus five minutes. The
  update handler also re-keys the map entry under the job handle, not the
  event id. All three quirks are modelled as written.

## Model

| member | source | states |
|---|---|---|
| Common.WaitFor | Services/SchedulerService.cs:114-121 | the wait is zero exactly when the earliest time is strictly before now; when half the remaining time is under the threshold it is five seconds; otherwise it is half the remaining time truncated to ticks; an earliest time equal to now gives five seconds, not zero. The scheduler's threshold is one minute; the module loop of Modules/EventNotifyModule.cs:132-138 uses the same wait with a five-minute threshold |
| Common.Least | Services/SchedulerService.cs:111-112 | the least due time is the time of some job and no job is due earlier |
| Common.RemoveFirst | Modules/RotationModule.cs:156 | `List.Remove` by value shortens a list holding the element by one and leaves a list without it unchanged |
| Common.RemoveFirstMultiset | Modules/RotationModule.cs:156 | removing a present element takes out exactly one copy of it and nothing else |
| Common.RemoveFirstAt | Modules/RotationModule.cs:146-156 | removing by value the element found at position `i`, with no equal element before it, removes exactly position `i` |
| Rotation.LeadingSkipped | Services/RotationService.cs:45 | the skip loop stops at the first entry whose flag is clear, after a run of skipped entries |
| Rotation.Unskipped | Services/RotationService.cs:49 | the moved entries keep every field except the skip flag, which is cleared |
| Rotation.SkipPastShape | Services/RotationService.cs:43-51 | skipping keeps the length, leaves a head that is not skipped, and is the identity when the head is not skipped |
| Rotation.SkipPastIdempotent | Services/RotationService.cs:43-51 | a second skip pass changes nothing |
| Rotation.SkipPastKeepsEntries | Systems/RotationSystem.cs:221-229 | up to the skip flags, skipping keeps exactly the same entries |
| Rotation.AdvanceCases | Services/RotationService.cs:29-41 | advancing gives false exactly for the empty list and throws exactly when the one entry left after skipping is a postponement; otherwise a user head keeps the length, a postponement head loses one entry, and the new head is not skipped |
| Rotation.AdvanceKeepsUsers | Systems/RotationSystem.cs:207-219 | up to skip flags, advancing past a user keeps the same entries and advancing past a postponement loses exactly that entry |
| Rotation.AdvancePlain | Systems/RotationSystem.cs:207-219 | on a queue of users none of whom is skipped, an advance rotates the queue by one place |
| Rotation.PlainCycle | Systems/RotationSystem.cs:207-219 | `k` advances of such a queue rotate it by `k` places, and as many advances as users bring every user back to where they started |
| Rotation.ClearedLinks | Services/RotationService.cs:90-118 | the cleanup keeps the head and drops the link of every entry behind it, changing nothing else |
| Rotation.ClearedLinksEstablishes | Services/RotationService.cs:90-118 | after the cleanup only the head may hold an event link, and a queue in that state is left as it is |
| Rotation.StaleKeysStep | Services/RotationService.cs:96-109 | looking at one more position deletes at most that position's record: the one it links to, when present and its platform event could be deleted |
| Rotation.Cleanup | Systems/RotationSystem.cs:43-70 | the cleanup pass leaves only the head linked, keeps the queue length, and only deletes records |
| Rotation.CleanupIdempotent | Systems/RotationSystem.cs:43-70 | on a queue where only the head is linked, the cleanup deletes nothing and changes nothing |
| Rotation.CleanupStep | Systems/RotationSystem.cs:45-69 | one position of the cleanup loop drops its link and deletes its record only when the record exists and the platform deletion succeeds |
| Rotation.Renumbered | Services/RotationService.cs:53-60 | the write-back stores every entry with its order set to its index, nothing else changed |
| Rotation.InsertByOrder | Services/RotationService.cs:25 | placing one record into the sorted prefix adds exactly one element |
| Rotation.OrderByOrder | Services/RotationService.cs:23-26 | the stable sort by order keeps the number of records |
| Rotation.OrderByOrderSorts | Services/RotationService.cs:23-26 | loading gives the stored records sorted by order, as a permutation of them |
| Rotation.OrderByOrderSorted | Modules/RotationModule.cs:26-33 | loading records that are already in order keeps their order |
| Rotation.PersistLoadRoundTrip | Modules/RotationModule.cs:35-40 | the records written back load in the same order, and writing them back again writes the same records |
| Rotation.ConsumedBefore | Systems/RotationSystem.cs:116-146 | the number of game nights taken in front of a position never exceeds the position |
| Rotation.Slots | Systems/RotationSystem.cs:116-146 | the announcement has one line per entry, each given by the entry's kind, skip flag, star and game night |
| Rotation.AnnouncementSlots | Systems/RotationSystem.cs:116-146 | the walk throws exactly when some user entry has no id or its lookup fails, and otherwise gives each unskipped user and each postponement the next game night in order and a skipped user none; the service snapshot's walk (Services/RotationService.cs:167-197) has the same lines |
| Rotation.StarOnFirstUser | Systems/RotationSystem.cs:125-129 | an entry gets the star exactly when no user stands in front of it |
| Rotation.ConsumedMonotone | Systems/RotationSystem.cs:132-141 | positions further back have taken at least as many game nights, and strictly more when an entry between them took one |
| Rotation.SlotDatesIncrease | Systems/RotationSystem.cs:132-141 | with increasing game nights for the whole queue, entries further back that take a night get strictly later nights |
| Recurrence.ToIsoDayOfWeek | Services/RotationService.cs:240 | the ISO weekday is 1 to 7 and agrees with the platform weekday modulo 7 |
| Recurrence.NextOrSame | Services/RotationService.cs:241 | the adjusted date is the first date on or after the cursor with the weekday |
| Recurrence.CursorStep | Services/RotationService.cs:245-249 | moving the cursor to the day after a candidate and adjusting again gives a date exactly a week later |
| Recurrence.YieldedNotBefore | Services/RotationService.cs:254-255 | every yielded instant is at or after now |
| Recurrence.YieldedIncreasing | Systems/RotationSystem.cs:193-204 | with an increasing local-to-instant conversion, the yielded instants are strictly increasing, and none is later than the instant of the last candidate date examined; that they are candidate dates is the definition of `Recurrence.Yielded` |
| Recurrence.GenerateFutureGameNightInstants | Services/RotationService.cs:231-257 | nothing unless the schedule is configured; otherwise the instants of the weekly candidate dates from today that are not before now, in order. The system snapshot's generator (Systems/RotationSystem.cs:179-205) gives the same result. The schedule counts as configured when day, time and zone are all set, the channel not being needed (Modules/RotationModule.cs:82-85) |
| RotationService.RotationList.constructor | Services/RotationService.cs:20-27 | the list holds the stored records sorted by order |
| RotationService.RotationList.AdvancePastSkippedUsers | Services/RotationService.cs:43-51 | an empty list throws and is left alone; otherwise the list becomes the skipped-past queue |
| RotationService.RotationList.AdvanceRotation | Services/RotationService.cs:29-41 | false and no change for the empty list, true and the advanced queue otherwise, or a throw with the list left empty |
| RotationService.RotationList.Dispose | Services/RotationService.cs:53-60 | the store's rotation records become the renumbered list, and nothing else in the store changes |
| RotationService.CreateSpec | Services/RotationService.cs:121-144 | nothing for a postponement head; for a user it throws exactly when the id is missing, the lookup fails, the schedule gives no night or the creation fails; otherwise the head is linked to the new record and then the record is inserted, and an existing key makes the insert throw with the link kept |
| RotationService.CompletedSpec | Services/RotationService.cs:269-288 | once the completed event's record `key` is found: an empty queue changes nothing, a faulted advance throws with nothing deleted, and otherwise the advanced queue keeps its length and the store loses `key` and gains at most `newKey`; that the new head is linked to a new record replacing `key` is `RotationService.CompletedReplacesEvent` |
| RotationService.RefreshSpec | Services/RotationService.cs:68-119 | the refresh keeps the queue length and leaves the empty queue and the store alone; that a returning refresh leaves only the head linked, and the rest, is `RotationService.RefreshLinksHeadOnly` and `RotationService.RefreshIdempotent` |
| RotationService.RefreshLinksHeadOnly | Services/RotationService.cs:76-118 | a refresh that returns leaves a head that is not skipped and no link behind it; a user head is then linked; every record deleted was linked from behind the head and its event could be deleted |
| RotationService.RefreshIdempotent | Services/RotationService.cs:68-119 | refreshing a refreshed queue changes nothing and creates nothing |
| RotationService.CompletedReplacesEvent | Services/RotationService.cs:269-288 | when the completed turn was a user's and the next user's event can be created, the queue takes the turn and the store holds the new event in place of the completed one |
| RotationService.CreateEventForNextRotation | Services/RotationService.cs:121-144 | the list and the store end as `CreateSpec` says, and nothing else in the store changes |
| RotationService.RefreshEvents | Services/RotationService.cs:68-119 | the list and the store end as `RefreshSpec` says, and nothing else in the store changes |
| RotationService.ClearLinksBehindHead | Services/RotationService.cs:89-118 | the loop leaves the list and the store as `Cleanup` says; a failed deletion keeps its record (the source also logs it, which is not modelled) |
| RotationService.GuildScheduledEventCompleted | Services/RotationService.cs:269-288 | nothing unless a tracked event points at the completed event; otherwise the turn, the deletion of that record, the next event and the announcement, with the queue written back whether or not a step throws |
| RotationSystem.AdvancePastSkippedUsers | Systems/RotationSystem.cs:221-229 | an empty list throws; otherwise the list becomes the skipped-past queue |
| RotationSystem.AdvanceRotation | Systems/RotationSystem.cs:207-219 | false exactly for the empty list; otherwise the advanced queue, or a throw with the list empty |
| RotationSystem.CreateSpec | Systems/RotationSystem.cs:73-93 | the queue is never touched; nothing for a postponement head; for a user exactly one record is inserted unless a lookup or the creation throws |
| RotationSystem.RefreshSpec | Systems/RotationSystem.cs:21-71 | the refresh keeps the queue length and leaves the empty queue and the store alone; that it agrees with the service snapshot's refresh, and so links only the head, is `RotationSystem.SnapshotsAgree` |
| RotationSystem.SnapshotsAgree | Systems/RotationSystem.cs:21-71 | the two snapshots' refreshes throw under the same conditions and, when they return, leave the same queue and store |
| RotationSystem.CreateEventForNextRotation | Systems/RotationSystem.cs:73-93 | the list and the store end as `CreateSpec` says |
| RotationSystem.RefreshEvents | Systems/RotationSystem.cs:21-71 | the list and the store end as `RefreshSpec` says |
| RotationSystem.ClearLinksBehindHead | Systems/RotationSystem.cs:43-70 | the loop leaves the list and the store as `Cleanup` says, deletion failures swallowed |
| Announcement.HeadLink | Systems/RotationSystem.cs:148-160 | a link is posted exactly when the head is a user whose link names a stored record, and it is the event link of that record's platform event |
| Announcement.Announce | Systems/RotationSystem.cs:103-108 | nothing for an empty queue or when no text channel is configured |
| Announcement.PostRotationMessage | Systems/RotationSystem.cs:95-177 | the message sent is the configured channel, the walk's lines and the head's link, or the exception the walk raises; the service snapshot's announcement (Services/RotationService.cs:146-229) has the same content |
| RotationModule.RotationList.constructor | Modules/RotationModule.cs:26-33 | the list holds the stored records sorted by order |
| RotationModule.RotationList.Dispose | Modules/RotationModule.cs:35-40 | all records are replaced by the entries renumbered by index |
| RotationModule.IndexOfUser | Modules/RotationModule.cs:118 | the first position holding the user, or -1 exactly when no entry does |
| RotationModule.LastIndexOfUser | Modules/RotationModule.cs:182-189 | the last position holding the user, or -1 exactly when no entry does |
| RotationModule.UniqueFirstIsLast | Modules/RotationModule.cs:182-189 | in a list without repeated users, the first and the last entry of a user are the same |
| RotationModule.FindIndex | Modules/RotationModule.cs:118 | the scan returns the first position of the user, or -1 |
| RotationModule.AddSpec | Modules/RotationModule.cs:94-136 | a user already present is rejected; a missing `before` user is rejected; a rejection leaves the list unchanged; otherwise exactly one new user entry is inserted, at the end or immediately before the first entry of `before` |
| RotationModule.RemoveSpec | Modules/RotationModule.cs:139-163 | an absent user leaves the list unchanged; otherwise exactly the first entry of the user is removed |
| RotationModule.SwapSpec | Modules/RotationModule.cs:166-221 | equal users, then a missing first user, then a missing second user are rejected with the list unchanged; otherwise the last entries of the two users trade places and nothing else moves |
| RotationModule.SkipSpec | Modules/RotationModule.cs:224-251 | an absent user leaves the list unchanged; otherwise only the first entry of the user gets the skip flag |
| RotationModule.PostponeSpec | Modules/RotationModule.cs:297-314 | nothing when the head is a postponement; otherwise one postponement goes in front |
| RotationModule.AddThenRemove | Modules/RotationModule.cs:94-163 | removing a user just added gives the list back, wherever the user was added |
| RotationModule.AddKeepsUnique | Modules/RotationModule.cs:101-128 | adding keeps every user in the list at most once |
| RotationModule.SwapTwiceRestores | Modules/RotationModule.cs:166-221 | in a list without repeated users, swapping the same users again undoes the swap |
| RotationModule.PostponeIdempotent | Modules/RotationModule.cs:304-307 | two postpones in a row add only one postponement |
| RotationModule.AfterEdit | Modules/RotationModule.cs:128-136 | an edit is followed by the system snapshot's refresh, and by the announcement unless the refresh throws |
| RotationModule.RefreshAndPost | Modules/RotationModule.cs:128-136 | the list and the store end as `AfterEdit` says |
| RotationModule.Add | Modules/RotationModule.cs:94-136 | the store ends with the added queue refreshed and written back, or with the queue unchanged when the add is rejected |
| RotationModule.Remove | Modules/RotationModule.cs:139-163 | the store ends with the removed queue refreshed and written back, or unchanged when the user is absent |
| RotationModule.LastPositions | Modules/RotationModule.cs:182-189 | the scan finds the last position of each user, an entry of the first user never counting for the second |
| RotationModule.Swap | Modules/RotationModule.cs:166-221 | equal users change nothing at all; otherwise the store ends with the swapped queue refreshed and written back, or with the queue unchanged when a user is missing |
| RotationModule.Skip | Modules/RotationModule.cs:224-251 | the caller is skipped when no user is named; the store ends with the skipped queue refreshed and written back, or unchanged when the user is absent |
| RotationModule.Postpone | Modules/RotationModule.cs:297-314 | the store ends with the postponed queue refreshed and written back, or unchanged when the head already is a postponement |
| RotationModule.CompletedSpec | Modules/RotationModule.cs:45-61 | the module's handler keeps every record, the completed one included, and takes the turn when the queue can advance |
| RotationModule.GuildScheduledEventCompleted | Modules/RotationModule.cs:45-61 | nothing unless a tracked event points at the completed one; otherwise the store ends as `CompletedSpec` says |
| Scheduler.StepTx | Services/SchedulerService.cs:99-133 | a mutation signals exactly when the depth is 0; a begin never signals; an end decrements the byte and then recalculates, so from a depth above 0 it lowers the depth by one and signals when it reaches 0 |
| Scheduler.ScopeSilent | Services/SchedulerService.cs:22-26 | inside an open transaction no operation signals, and the depth moves by the balance of begins and ends |
| Scheduler.RunTxAppend | Services/SchedulerService.cs:99-103 | running two sequences of operations is running the first and then the second |
| Scheduler.OutermostScope | Services/SchedulerService.cs:129-133 | a scope opened at depth 0 around balanced work raises no signal until it closes, and closing it signals |
| Scheduler.MutationsRun | Services/SchedulerService.cs:99-103 | a run of mutations leaves the depth and signals exactly when at least one ran at depth 0 |
| Scheduler.ByteRoundTrip | Services/SchedulerService.cs:141 | incrementing and then decrementing the byte depth gives it back, and the increment wraps to 0 only from 255 |
| Scheduler.ScopeRuns | Services/SchedulerService.cs:22-26 | begin, `n` changes and end leave the depth where it was and signal as `ScopeResult` says, wrap-around included |
| Scheduler.SchedulerService.RecalculateTick | Services/SchedulerService.cs:99-103 | the signal is raised unless a transaction is open, and the jobs are unchanged |
| Scheduler.SchedulerService.BeginTransaction | Services/SchedulerService.cs:22-26 | a new scope bound to this scheduler, the depth up by one, the jobs unchanged |
| Scheduler.SchedulerService.AddJob | Services/SchedulerService.cs:28-36 | the handle is the previous counter plus one, it was not in use, and exactly one job is stored under it with the others unchanged; the add cannot fail |
| Scheduler.SchedulerService.UpdateJob | Services/SchedulerService.cs:38-46 | an unknown handle gives false and changes nothing, not even the signal; a known one gives true and replaces its time and callback with the job count unchanged |
| Scheduler.SchedulerService.RemoveJob | Services/SchedulerService.cs:52-57 | the result says whether the handle was present, the handle is gone afterwards, the other jobs are unchanged, and the signal is recalculated either way |
| Scheduler.SchedulerService.ApproachNextEvent | Services/SchedulerService.cs:105-122 | infinite with no jobs; otherwise the halving wait towards the earliest due time with a one-minute floor |
| Scheduler.SchedulerService.NextTick | Services/SchedulerService.cs:88-97 | the wait is that of `ApproachNextEvent`, and the pending signal is consumed |
| Scheduler.SchedulerService.ProcessDue | Services/SchedulerService.cs:65-84 | every snapshotted job due strictly before now is fired and removed, a throwing one too; every other job stays, so all remaining jobs are at or after now |
| Scheduler.Transaction.Dispose | Services/SchedulerService.cs:129-133 | the owner's byte depth goes down by one and the signal is recalculated, the jobs unchanged |
| EventNotifyModule.FiveMinuteWarning | Modules/EventNotifyModule.cs:185-188 | the warning is exactly five minutes before the event time |
| EventNotifyModule.TryAddAll | Modules/EventNotifyModule.cs:53-57 | adding a series of events keeps every entry keyed by its own id |
| EventNotifyModule.TryAddAllLookup | Modules/EventNotifyModule.cs:56-57 | after the adds a key holds its earlier entry if it had one, and otherwise the first added event with that id |
| EventNotifyModule.ReadyContents | Modules/EventNotifyModule.cs:51-61 | after ready, an id is tracked exactly when some guild has an event with it, and it maps to the first such event |
| EventNotifyModule.Notifier.Ready | Modules/EventNotifyModule.cs:51-61 | the map is cleared, then gets one entry per event of every guild, and the signal is raised |
| EventNotifyModule.Notifier.Created | Modules/EventNotifyModule.cs:167-172 | the event is added only when its id is absent, and the signal is raised |
| EventNotifyModule.Notifier.Updated | Modules/EventNotifyModule.cs:142-158 | an event missing from the client cache throws before anything changes; otherwise an unknown id is handled as created; a known one gets the new event time with its id and guild kept, and the signal is raised only when the time changed |
| EventNotifyModule.Notifier.Cancelled | Modules/EventNotifyModule.cs:160-165 | the id is removed, if present, and the signal is raised |
| EventNotifyModule.Notifier.ApproachNextEvent | Modules/EventNotifyModule.cs:124-140 | infinite with no events; otherwise the halving wait towards the earliest warning with a five-minute floor |
| EventNotifyModule.Notifier.NextTick | Modules/EventNotifyModule.cs:113-122 | the wait is that of `ApproachNextEvent`, and the pending signal is consumed |
| EventNotifyModule.Notifier.ProcessDue | Modules/EventNotifyModule.cs:69-80 | the snapshotted events whose warning is before now are notified in order and removed, up to the first notification that throws; all others stay |
| EventNotifyService.Joined | Services/EventNotifyService.cs:58-66 | joining never replaces an existing entry |
| EventNotifyService.JobsAddedContents | Services/EventNotifyService.cs:54-67 | a guild gets one new job per event, under consecutive new handles, due five minutes before its start, with the old jobs unchanged |
| EventNotifyService.JoinedFilesAll | Services/EventNotifyService.cs:58-66 | every event of the guild ends up in the map |
| EventNotifyService.NotifySpec | Services/EventNotifyService.cs:107-151 | an event already handled returns early; a posted notification records the event as handled; nothing else is recorded |
| EventNotifyService.NotifiesAtMostOnce | Services/EventNotifyService.cs:113-147 | once an event has been notified, any later notification of it posts nothing and records nothing |
| EventNotifyService.EventNotify.JoinedGuild | Services/EventNotifyService.cs:54-67 | the map and the jobs end as `Joined` and `JobsAdded` say, the counter rises by the number of events, and the signal follows a single transaction around the adds |
| EventNotifyService.EventNotify.AddGuildJobs | Services/EventNotifyService.cs:58-65 | the loop over the guild's events: one job each under consecutive handles, an entry only for an id not yet filed, and one change signalled per event |
| EventNotifyService.JoinStep | Services/EventNotifyService.cs:58-65 | one more event adds its job under the next handle and its entry only when the id is new |
| EventNotifyService.EventNotify.Created | Services/EventNotifyService.cs:95-105 | one new job five minutes before the start, and the map entry for the event is overwritten with the guild and event ids in swapped places and the raw start time |
| EventNotifyService.EventNotify.Cancelled | Services/EventNotifyService.cs:87-93 | a present event loses its entry and its job; an absent one changes nothing |
| EventNotifyService.EventNotify.Updated | Services/EventNotifyService.cs:69-85 | an event missing from the client cache throws with the map, the jobs and the signal unchanged; otherwise an unknown event goes through creation; a known one is re-keyed under its job handle with the start minus five minutes, and its job is updated only when that time differs from the stored one |
| EventNotifyService.EventNotify.ClearEventJobs | Services/EventNotifyService.cs:42-52 | every job held in the map is removed and the map is left empty, inside one transaction |
| EventNotifyService.EventNotify.RemoveHeldJobs | Services/EventNotifyService.cs:46-51 | the loop over a copy of the map: each held job removed from the scheduler and its entry from the map, leaving the map empty |
| EventNotifyService.EventNotify.Connected | Services/EventNotifyService.cs:33-40 | the clear and the joins of every guild run in one transaction: the map and jobs are rebuilt from the guilds' events |
| EventNotifyService.EventNotify.JoinGuilds | Services/EventNotifyService.cs:38-39 | joining the guilds in turn adds the map entries and jobs of every event of every guild |
| EventNotifyService.EventNotify.NotifyEvent | Services/EventNotifyService.cs:107-151 | the handled-event record and the result are those of `NotifySpec`, and nothing else in the store changes |
| ActionTimers.Handler | Systems/ActionTimerSystem.cs:39-50 | rotation timers go to the rotation handler, day-after timers to the day-after handler, and `None` and every other value to no handler |
| ActionTimers.WithoutTypeExact | Systems/ActionTimerSystem.cs:62-69 | after clearing no timer of the type is left, and every timer of another type keeps its number of copies |
| ActionTimers.WithoutTypeIdempotent | Systems/ActionTimerSystem.cs:62-69 | clearing a type twice is clearing it once |
| ActionTimers.Pass | Systems/ActionTimerSystem.cs:54-58 | a tick that ends in an exception ends at a timer whose handler threw |
| ActionTimers.Unexpired | Systems/ActionTimerSystem.cs:78 | the timers left are timers of the list that have not expired |
| ActionTimers.PassWithoutFailures | Systems/ActionTimerSystem.cs:71-84 | when no handler throws, a tick visits every expired timer from the last position down and leaves exactly the unexpired ones, in order |
| ActionTimers.PassFailureKeeps | Systems/ActionTimerSystem.cs:79-81 | the timer whose handler throws is still in the list afterwards (the untouched front is `ActionTimers.PassSplit`) |
| ActionTimers.PassSplit | Systems/ActionTimerSystem.cs:71-84 | processing a list is processing its back part first and then, unless that threw, its front part; a throw leaves the front untouched in the list |
| ActionTimers.TimerList.ClearTimers | Systems/ActionTimerSystem.cs:62-69 | the backward loop leaves the list without the timers of the type |
| ActionTimers.TimerList.OnTickInterval | Systems/ActionTimerSystem.cs:33-60 | the visited timers, the timers left and whether an exception escaped are those of `Pass`, and each visited timer with a handler produced one handler call, in order |
| Logging.ShownInContext | OddlySpecific.Logging/Logger.Core.cs:73-86 | a context below the threshold hides every message while it is open, and one at or above it changes nothing |
| Logging.Reach | OddlySpecific.Logging/Logger.Core.cs:63-71 | a dispatch reaches every endpoint up to and including the first that throws |
| Logging.Matching | OddlySpecific.Logging/Logger.Core.cs:208-212 | the selected endpoints are exactly those of the type |
| Logging.Unmatching | OddlySpecific.Logging/Logger.Core.cs:214-220 | what is left after removing a type is exactly the endpoints not of it |
| Logging.WithoutStep | OddlySpecific.Logging/Logger.Core.cs:214-220 | removing by value the next endpoint of the type from the partly cleared list removes that one: no equal endpoint stands before it |
| Logging.WithoutAll | OddlySpecific.Logging/Logger.Core.cs:214-220 | removing every endpoint of the type one by one leaves exactly the others, in order |
| Logging.EndpointCollection.Get | OddlySpecific.Logging/Logger.Core.cs:192 | the getter gives the endpoint at the index and throws exactly when the index is out of range |
| Logging.EndpointCollection.Set | OddlySpecific.Logging/Logger.Core.cs:193 | the setter always throws |
| Logging.EndpointCollection.CopyTo | OddlySpecific.Logging/Logger.Core.cs:250-253 | copying always throws |
| Logging.EndpointCollection.GetSingle | OddlySpecific.Logging/Logger.Core.cs:202-206 | none when no endpoint is of the type, the one endpoint when exactly one is, a throw when several are |
| Logging.EndpointCollection.GetAll | OddlySpecific.Logging/Logger.Core.cs:208-212 | the endpoints of the type, in order |
| Logging.EndpointCollection.Add | OddlySpecific.Logging/Logger.Core.cs:222-226 | the endpoint is initialised, and appended only when that returns |
| Logging.EndpointCollection.Remove | OddlySpecific.Logging/Logger.Core.cs:228-235 | the result says whether the endpoint was present; its first copy is removed and disposed only then |
| Logging.EndpointCollection.RemoveAll | OddlySpecific.Logging/Logger.Core.cs:214-220 | every endpoint of the type is disposed, in order, and removed; the others stay in order |
| Logging.EndpointCollection.Clear | OddlySpecific.Logging/Logger.Core.cs:237-243 | every endpoint is disposed, in order, and the list is emptied |
| Logging.EndpointCollection.Insert | OddlySpecific.Logging/Logger.Core.cs:260-263 | the endpoint is inserted at the index without being initialised; an index out of range throws |
| Logging.EndpointCollection.RemoveAt | OddlySpecific.Logging/Logger.Core.cs:265-269 | the endpoint at the index is disposed and then removed; an index out of range throws and changes nothing |
| Logging.EndpointCollection.DisposeEach | OddlySpecific.Logging/Logger.Core.cs:271-275 | every endpoint is disposed, in order, and the list is kept |
| Logging.Logger.constructor | OddlySpecific.Logging/Logger.Core.cs:20-26 | a new logger shows `Info` and above, with zero counters, no context and no endpoint |
| Logging.Logger.IsSeverityVisible | OddlySpecific.Logging/Logger.Core.cs:73-86 | visible exactly when the severity is at or above the threshold and so is every open context |
| Logging.Logger.Log | OddlySpecific.Logging/Logger.Core.cs:46-61 | a hidden message changes nothing; a shown one raises the counter of its severity by one, has its line breaks normalised, and goes to the endpoints in order at the depth of the open contexts until one throws |
| Logging.Logger.DispatchLogLine | OddlySpecific.Logging/Logger.Core.cs:63-71 | each endpoint receives the line in order, stopping after the first that throws, and the exception is swallowed |
| Logging.Logger.Context | OddlySpecific.Logging/Logger.Core.cs:34-38 | the message is logged first, then a new context without footer is pushed |
| Logging.Logger.PushContext | OddlySpecific.Logging/Logger.Core.cs:88-93 | the context goes on top of the stack and nothing else changes |
| Logging.Logger.PopContext | OddlySpecific.Logging/Logger.Core.cs:95-98 | the innermost context is dropped; an empty stack throws |
| Logging.Logger.Dispose | OddlySpecific.Logging/Logger.Core.cs:100-103 | the endpoints are disposed |
| Logging.LoggerContext.WithFooter | OddlySpecific.Logging/Logger.Core.cs:153-161 | a second footer or a null message throws and keeps the footer; otherwise the footer is set |
| Logging.LoggerContext.Dispose | OddlySpecific.Logging/Logger.Core.cs:172-178 | a set footer is logged at the context's severity while it is still open, then the innermost context is popped |
| StringUtility.TextBuilder.Insert | OddlySpecific.Logging/Utility/StringUtility.cs:19 | the text gains the insert at the index and is otherwise unchanged |
| StringUtility.TextBuilder.IndexOf | OddlySpecific.Logging/Utility/StringUtility.cs:26-38 | the least position at or after the offset holding the character, or -1 exactly when there is none |
| StringUtility.TextBuilder.TrimEnd | OddlySpecific.Logging/Utility/StringUtility.cs:68-82 | the text loses its trailing white space |
| StringUtility.AfterEachLFLength | OddlySpecific.Logging/Utility/StringUtility.cs:15-23 | every line feed gains one prefix |
| StringUtility.PrefixedLength | OddlySpecific.Logging/Utility/StringUtility.cs:15-23 | the result is as long as the value plus one prefix for the start and one per line feed |
| StringUtility.PrefixedByEmpty | OddlySpecific.Logging/Utility/StringUtility.cs:12-13 | an empty prefix leaves the value as it is |
| StringUtility.PrefixLines | OddlySpecific.Logging/Utility/StringUtility.cs:9-24 | a null value throws; otherwise the prefix ends up at the start and after every line feed, a trailing one included |
| StringUtility.QuotedOrDefault | OddlySpecific.Logging/Utility/StringUtility.cs:41-48 | a null default throws; a null value gives the default; otherwise the value between double quotes |
| StringUtility.LfToLineBreaks | OddlySpecific.Logging/Utility/StringUtility.cs:60-61 | replacing the line feeds of the unified text is replacing every line break |
| StringUtility.UnifiedIsLineBreaks | OddlySpecific.Logging/Utility/StringUtility.cs:58 | collapsing CR LF and then turning lone CRs into LF gives one LF per line break |
| StringUtility.NormalizeLFIsLineBreaks | OddlySpecific.Logging/Utility/StringUtility.cs:51-64 | the text becomes every line break (CR LF, a lone CR or a lone LF) replaced by the line feed, the default being the platform's new line; text without breaks comes back as it is |
| StringUtility.NormalizeToLfIdempotent | OddlySpecific.Logging/Utility/StringUtility.cs:51-64 | normalised to "\n", the text has no carriage return and normalising again changes nothing |
| StringUtility.TrimmedEndExact | OddlySpecific.Logging/Utility/StringUtility.cs:68-82 | trimming leaves a prefix that does not end in white space, and everything removed is white space |
| StringUtility.TrimmedEndIdempotent | OddlySpecific.Logging/Utility/StringUtility.cs:68-82 | trimming a trimmed text changes nothing |
| GuildEventUtility.DecimalString | Utility/GuildEventUtility.cs:15 | an id is written as a non-empty string of decimal digits |
| GuildEventUtility.DecimalRoundTrip | Utility/GuildEventUtility.cs:15 | the digits written for an id denote that id |
| GuildEventUtility.TryParseU64 | Utility/GuildEventUtility.cs:23-24 | a digit string parses exactly when its value fits in 64 bits, to that value |
| GuildEventUtility.DigitRun | Utility/GuildEventUtility.cs:48 | a greedy run of digits: all digits, followed by a non-digit or the end |
| GuildEventUtility.MatchPosition | Utility/GuildEventUtility.cs:21 | the scan stops at the first position where the pattern matches, with no match before it, or runs past the end when there is none |
| GuildEventUtility.FirstMatch | Utility/GuildEventUtility.cs:48 | the leftmost match of the link pattern, or no match anywhere |
| GuildEventUtility.TryParseEventDetails | Utility/GuildEventUtility.cs:18-25 | without a match, false and both ids 0; true exactly when the leftmost match's two groups both fit in 64 bits, with those values; on failure the event id is 0 and the guild id keeps the first group's value when that one parsed, else 0 |
| GuildEventUtility.CreateEventLink | Utility/GuildEventUtility.cs:13-16 | the link prefix, then the guild id's digits, a single `/`, and the event id's digits; that it parses back to both ids is `GuildEventUtility.LinkRoundTrip` |
| GuildEventUtility.LinkRoundTrip | Utility/GuildEventUtility.cs:13-25 | a link parses back to the two ids it was made from, also when text follows that does not continue the second number |
| GuildEventUtility.FindFrom | Utility/GuildEventUtility.cs:30 | the first occurrence of the delimiter at or after a position, or none at all |
| GuildEventUtility.CreateEventDescription | Utility/GuildEventUtility.cs:27-44 | the kept free text, a delimiter line, and one `{user} N/A` line per user in order, each line ended by the platform's line end |
| GuildEventUtility.DescriptionRewrite | Utility/GuildEventUtility.cs:30-43 | writing a description again, with the same or other users, replaces the attendee block instead of adding a second one, for any short dash-free line end such as "\n" or "\r\n" |
| Disposable.DisposeStep | Utility/Disposable.cs:16-25 | a disposed object is left alone; otherwise `DisposeOnce` runs once, and the object becomes disposed exactly when that run returns |
| Disposable.DisposeOnceRunsUntilSuccess | Utility/Disposable.cs:18-24 | starting undisposed, `DisposeOnce` runs once per failing attempt up to and including the first that returns, and never after; the object ends disposed exactly when one attempt returned |
| Disposable.DisposedStays | Utility/Disposable.cs:18 | once disposed, further calls change nothing |
| Disposable.Guarded.Dispose | Utility/Disposable.cs:16-25 | the flag, the run count and the outcome are those of `DisposeStep` |
| Disposable.Guarded.Ensure | Utility/Disposable.cs:28-32 | throws exactly when the object is disposed |

## Left out

- Platform, store and callback calls have no model of their own: fetching users and events, creating, deleting and starting events, sending messages, reactions, pins and the document store's sessions. Their answers are parameters of the routines that make them.
- Concurrency has no model: background loops, `Task.WhenAny`/`Task.Delay`, concurrent dictionaries, interlocked counters. Each wait loop is one sequential iteration, and the semaphore is a boolean pending signal. Both loops use `SemaphoreSlim(0, 1)` (Services/SchedulerService.cs:138, Modules/EventNotifyModule.cs:183), whose `Release` throws `SemaphoreFullException` when the count is already 1. So a second `AddJob`, `UpdateJob` or `RemoveJob` outside a transaction, or a second module handler, before the loop wakes throws after its bookkeeping. The model collapses the two signals into one and does not model that exception.
- ClearLinksBehindHead: the service snapshot logs each failed deletion through its `ILogger` (Services/RotationService.cs:112). The model keeps the record, as the source does, but has no log.
- The services' and systems' `ILogger` calls are not modelled: Services/RotationService.cs:112 and :222, Services/EventNotifyService.cs:125 and :132, Systems/ActionTimerSystem.cs:52 and :56, Services/SchedulerService.cs:77. Each only writes a log line next to a branch the model does take.
- The `ulong` job counter and the `int` logger counters are unbounded. Their wrap-around after 2^64 and 2^31 increments is not modelled. The one-byte transaction depth does wrap, modulo 256.
- Clocks and time zones are abstract. Today's date and the current instant are parameters. Turning a local date and the configured time into an instant, leniently in the zone, is a function the caller supplies. Parsing the time of day is not modelled.
- Recurrence.GenerateFutureGameNightInstants: the source's generator is infinite. The model yields what it produces while its cursor tests a given number of dates.
- Rotation.CurrentAfter: the game nights are a finite prefix of the generator's output. Past its end `Current` is taken as the epoch. That is what the empty enumerator of an unconfigured schedule reports; a configured generator never runs out.
- Message text and formatting are not modelled: mentions, timestamps, the star and "away" markers as text, the description of created events, and the log line time stamp. The announcement is modelled as its lines and its link.
- The link pattern's `\d` is read as the ASCII digits only.
- The module's debug commands are not modelled (Modules/RotationModule.cs:316-335). Nor are the channel and time settings (`SetChannel`, `SetTime`), which only store a configuration value.
- ActionTimers.TimerList.OnTickInterval: the timer handlers themselves are not part of this model. They are taken not to touch the timer list. Only whether each one throws is a parameter.
- Logging: `SafelyFormat` and `string.Format` are not modelled. The formatting overloads of `Log`, `Context` and `WithFooter` are left out; the model takes the formatted message.
- The one-line wrappers of `Logger.Methods.cs`, the exception text helpers, and the endpoint implementations (file, console, debugger, string) are not modelled.
- Logging.EndpointCollection: `Contains`, `IndexOf`, `Count` and enumeration are plain delegations to the list and are not modelled separately. Endpoint `Dispose` is taken never to throw.
- StringUtility.PrefixLines: requires a prefix with no line feed after its first character. For any other prefix the source's rescan finds the line feed it has just inserted, and the loop never ends. A null prefix is treated as empty.
- StringUtility.TextBuilder.IndexOf: requires a non-negative offset. Indexing the builder at a negative offset throws in the source, which is not modelled.
- StringUtility.NormalizeLFIsLineBreaks: a null value is not modelled; the value is a string.
- GuildEventUtility.DescriptionRewrite: also requires that the free text not end in a dash. Otherwise its last dashes and the delimiter can form an earlier occurrence of the delimiter, and the free text is not given back as it was.
- The module's completed-event handler creates the next event, but that event is neither linked to the new head nor is the completed record deleted. This is modelled as written, in RotationModule.CompletedSpec.
- The reaction watchers, pin handling, admin and proxy modules, command wiring, configuration loading, time-zone downloads, persistence timers and the static guild cache are outside the core and not modelled.
