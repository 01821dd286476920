# HSgram admin backend: verification model

A Dafny model of the parts of the admin backend that hold state or do arithmetic, with proofs of what they keep
over whole runs. `dafny verify dfyconfig.toml` checks everything.

## What is modelled

**Group auto-messages** (`AutoMessage*.dfy`). A group's configuration, its items and its log are the rows of one
group (`AutoMessageRows`). Every store operation is a method of the class `GroupRows` over those rows
(`AutoMessageStore`), proved equal to a function of the old rows. About these functions it is proved:

- what a save and a sort accept and what they leave (`AutoMessageEdits`, with the listing order in
  `AutoMessageListing`);
- the service's validation and in-place normalisation, what every request keeps, and when a version changes
  (`AutoMessageService`);
- what each request and each attempt makes of the configuration, the items and the log, in terms of when the
  configuration is due, what the listing shows and what was logged (`AutoMessageEffects`);
- how successful sends go round the items, whatever failures come between (`AutoMessageRotation`);
- one round of a node over many groups, and why the backlog drains (`AutoMessageBacklog`, with what a round lists and
  does to each group under any locks in `AutoMessageRounds`).

`AutoMessageScheduler` is the distributed view: a step system with any number of workers, each with the clock
reading its round started with, a Redis lease that may expire at any moment, a row lock with a recheck, a send
before the commit, crashes anywhere, and edits by administrators in between. Each of its invariants is kept by every
step; about all its runs it is proved:

- between configuration edits, one attempt for each slot, no catch-up burst in the stored log, and who can remove a
  lease (`AutoMessageSafety`, and `AutoMessageEpochs` for any stretch of a run without such an edit);
- that nothing is sent or logged from a deactivation, or a save that does not enable, until a request switches the
  configuration on (`AutoMessageSilence`);
- which edits keep the slots apart, and a run in which another edit does not (`AutoMessageSlots`);
- that business ids tell attempts apart, so that a message service that keeps one message for each id recognises
  replays and nothing else (`AutoMessageDeliveries`, resting on the injectivity of the id in `AutoMessageBizId`);
- what a replay after a crash sends (`AutoMessageReplays`), and which edits keep the text the log shows the one the
  message service keeps (`AutoMessageTexts`);
- that the workers together do what the store's own operation does, one attempt after another, so that the rotation
  is theirs too (`AutoMessageRefinement`).

**The binary Android manifest** (`Axml*.dfy`). `AxmlText` has the little-endian numbers, the two length prefixes
and the two string encodings; `AxmlParser` the parser, as total functions and as the loops over chunks, strings
and attributes that are proved to compute them; `AxmlMeaning` what pools, attributes and manifest elements mean, and
that the parser reads exactly that from every byte sequence; `AxmlEncoder` an encoder of whole documents with a
meaning that does not mention bytes, and the round trip.

**The login limiter** (`LoginLimiter.dfy`). The table of attempts with lazy deletion and sweeping is proved to
answer like a history of calls that never forgets.

**Releases and update manifests** (`Release*.dfy`, `Manifest*.dfy`). `Releases` has the release rows and the latest
pointers, `Manifests` the manifest files beside them, and `ManifestCache` what a reader of tables and files finds.
`ManifestPublications` is a step system: any number of publications at once, each of which commits its pointer move,
reads its row back and then writes the files one by one, with failures anywhere; it is proved when a file is the
manifest of the release its key's pointer names. `ManifestOverlap` is a run in which it is not, `ManifestTurns` a guard
under which it always is. `ReleaseEffects` and `ManifestEffects` say what names, rows, manifests and files come to,
and `ReleaseLookups` which release and which file a lookup finds, from the pointers, the rows and the files themselves.
The URL parser is a parameter: every statement holds whatever texts it takes for absolute addresses.

**Broadcasts** (`Broadcast*.dfy`). Whom a broadcast goes to (`BroadcastTargets`), how one is delivered page by page
with its counters and delivery rows (`BroadcastRun`), who gets which message and what the rows say of it
(`BroadcastEffects`), and dispatchers competing for pending records (`BroadcastClaims`, tied to the turns of one
dispatcher in `BroadcastTurns`).

**Sticker imports** (`Sticker*.dfy`). A transaction on a copy of the tables beside
uploads to object storage, with compensating deletes. Every step can fail; a failed upload may leave its object,
a delete may fail, and a commit that reports an error may have taken effect. `StickerEffects` says how stickers are
recognised and what a committed import leaves of every row, entry and object.

`Prelude`, `GoStrings` and `Decimal` hold shared datatypes, the parts of Go's `strings` that are used, and decimal
numbers.

Times are whole seconds, as the `TIMESTAMP` columns keep them (the limiter's are nanoseconds). Clocks, random
numbers, ids the database hands out, the answers of the message service, of Telegram and of object storage are
parameters. Every lemma carries `{:induction false}`: where a proof is by induction, the induction is written out.
Each store transaction is one step on the rows; in `AutoMessageScheduler` the scheduled attempt is
split into its begin, send and commit, and in `ManifestPublications` what a handler does after its transaction comes in
steps of its own.

## Findings

Statements that a reader might expect and that the code does not meet, each with a proof of when it does:

- A save with version 0 skips the version check, and a save that names a repeated or a soft-deleted id drops that
  input silently (`AutoMessageEdits.SaveKeepsEveryInputIff`).
- A sort must list the ids of soft-deleted rows too (`AutoMessageEdits.SortAcceptsExactlyPermutations`).
- A slot can be scheduled again by an edit. Slots strictly increase exactly as long as every activation, and every save
  that enables, sets a time beyond the last slot attempted (`AutoMessageSlots.StepKeepsIncreaseIff`). An activation
  whose clock reading is an interval old does not, and then a slot is logged twice
  (`AutoMessageSlots.LateActivationRepeatsSlot`). The repeat reuses a committed business id exactly when index and
  item are the same too (`AutoMessageDeliveries.SentIdsMatchIff`).
- An edit of a text between a send and its replay is lost: the replay has the id of the send
  (`AutoMessageReplays.EditKeepsPendingId`), so the log shows the new text and the message service keeps the old one
  (`AutoMessageReplays.EditBeforeReplayLosesText`). An edit keeps the texts in agreement exactly when it leaves the text
  of every item that was sent, or is being sent, and is not logged (`AutoMessageTexts.EditKeepsTextsIff`); after any run
  whose edits do, and keep the slots increasing, the text kept is the text logged
  (`AutoMessageTexts.LoggedTextsAreKept`).
- The limit of live items is checked before the insert, in a statement of its own. Requests that overlap keep it exactly
  when there was room for all of them (`AutoMessageService.OverlappingAddsKeepLimitIff`).
- An update of an item that changes nothing is reported as a missing item, and does not bring the index back in range
  (`AutoMessageStore.GroupRows.UpdateItem`).
- A request id two workers share lets one release the lease of the other
  (`AutoMessageSafety.SharedRequestReleasesAnothersLease`).
- The shards cover only groups whose id is not negative or a multiple of the shard count
  (`AutoMessageBacklog.ShardsPartitionIff`).
- A recorded failure can lift a running block (`LoginLimiter.FailureLiftsBlockIff`). As the handler asks before it
  records, this takes two logins at once.
- A length that fits the short prefix but is written in the long form is read as well
  (`AxmlText.WriteReadLength8`, `AxmlText.WriteReadLength16`).
- What follows the manifest element plays no part in a parse, unless the document header claims to be as long as the
  file (`AxmlParser.ParseIgnoresRest`).
- Two publications of one key that overlap can leave the file of the one and the pointer of the other, although every
  write succeeds (`ManifestOverlap.OverlapLeavesOtherFile`). A file is the manifest of the release the pointer of its
  key names exactly when the key's last publication wrote it last, or another publication of the same release that
  read it with the time of publication it has now (`ManifestPublications.FileShowsPointedIff`). It always is where a
  publication starts only when no other of its key is open (`ManifestTurns.PointedIsWritten`).
- A manifest file is read back unchanged only if its address is absolute (`Manifests.ManifestIsFixedIff`), and a
  handler with a database serves unpublished drafts as long as no lookup key has a pointer
  (`ManifestCache.DraftIsServedIff`). Where the files follow the pointers, a handler with a database and one with only
  the files agree exactly when the pointed release's address reads back as the reader's own, or when there is no release
  (`ManifestCache.AnswersAgreeIff`, `ManifestTurns.RunAnswersAgreeIff`).
- Nobody looks whether a delivery row or the end of a broadcast is stored. The counts equal the rows exactly when every
  row is (`BroadcastRun.CountsMatchRowsIff`), and a broadcast whose end is not stored is sent again to everybody after
  the next start (`BroadcastRun.UnstoredEndIsSentAgain`).
- The reset a starting dispatcher makes is safe exactly when no other one is at work
  (`BroadcastClaims.ResetIsSafeIff`).
- A failed import leaves storage as it was exactly when the deletes work and no failed upload left its object
  (`StickerImportSafety.FailedImportRestoresIff`), and a commit in doubt can leave rows without objects
  (`StickerImportSafety.ImportKeepsLinkedIff`).

## Model

| member | source | states |
|---|---|---|
| AutoMessageStore.EnabledItems | backend/internal/store/auto_messages.go:986-994 | The loop keeps exactly the enabled items, in order. |
| AutoMessageStore.CountEnabledItems | backend/internal/store/auto_messages.go:996-1004 | The count is the length of the enabled items. |
| AutoMessageStore.ItemBelongsTo | backend/internal/store/auto_messages.go:1006-1013 | True exactly when some item has the id. |
| AutoMessageStore.GroupRows.Detail | backend/internal/store/auto_messages.go:230-253 | The detail read is a function of the rows, with the index clamped into the rotation. |
| AutoMessageStore.GroupRows.Save | backend/internal/store/auto_messages.go:283-372 | A save either changes nothing and reports a conflict or an unknown item, or leaves exactly the saved rows; what these are is AutoMessageEffects.SaveSwitches and AutoMessageEdits.SaveReplacesList. |
| AutoMessageStore.GroupRows.Enable | backend/internal/store/auto_messages.go:374-408 | Activation fails without change when nothing is enabled, else resets the index, schedules one interval ahead and bumps the version. |
| AutoMessageStore.GroupRows.Disable | backend/internal/store/auto_messages.go:410-423 | Deactivation leaves exactly the disabled rows, which are never due (AutoMessageEffects.DeactivationSwitchesOff). |
| AutoMessageStore.GroupRows.AddItem | backend/internal/store/auto_messages.go:425-451 | Adds one row, placed after the live ones unless an order is given; the version stays. |
| AutoMessageStore.GroupRows.UpdateItem | backend/internal/store/auto_messages.go:453-477 | Edits the live row of the id and brings the index back in range, or reports the row missing: also when the edit changes nothing, not even the editor. |
| AutoMessageStore.GroupRows.DeleteItem | backend/internal/store/auto_messages.go:479-499 | Soft-deletes the live row of the id or reports it missing, then brings the index back in range. |
| AutoMessageStore.GroupRows.SortItems | backend/internal/store/auto_messages.go:501-548 | Gives the listed ids their places or changes no item at all. |
| AutoMessageStore.GroupRows.NormalizeCurrentIndex | backend/internal/store/auto_messages.go:929-948 | Resets the index to 0 and bumps the version exactly when something is enabled and the index lies beyond it. |
| AutoMessageStore.GroupRows.ProcessDue | backend/internal/store/auto_messages.go:650-767 | One attempt: not due, group dissolved, nothing to send, or sent and logged, each with the whole new rows. |
| AutoMessageListing.OrderIsUnique | backend/internal/store/auto_messages.go:883-919 | Two strictly ordered listings of the same items are equal, so (sort_order, id) determines the listing. |
| AutoMessageListing.ListingOfLive | backend/internal/store/auto_messages.go:883-919 | A strictly ordered sequence of exactly the live items is the listing. |
| AutoMessageListing.ListingIsStrict | backend/internal/store/auto_messages.go:883-919 | Listings of rows with different ids are strictly ordered, with deleted rows left out or kept as asked. |
| AutoMessageEdits.SaveCommitsIff | backend/internal/store/auto_messages.go:283-372 | A save commits exactly when its version is absent or current and every id it names is stored, and conflicts exactly when a given version is not current. |
| AutoMessageEdits.SavedRows | backend/internal/store/auto_messages.go:298-343 | What each stored row becomes, and that the new inputs become rows after them. |
| AutoMessageEdits.SaveReplacesList | backend/internal/store/auto_messages.go:298-343 | With ids naming different live rows, the listing after a save is exactly the given items in order, every other row is soft-deleted and deleted rows are untouched. |
| AutoMessageEdits.SaveKeepsEveryInputIff | backend/internal/store/auto_messages.go:298-343 | A save leaves as many live rows as inputs exactly when the ids name different live rows, and never more. |
| AutoMessageEdits.SortAcceptsExactlyPermutations | backend/internal/store/auto_messages.go:501-548 | A sort succeeds exactly on the permutations of all stored ids. |
| AutoMessageEdits.SortOrdersListing | backend/internal/store/auto_messages.go:501-548 | After a sort the listing is the id list restricted to live rows. |
| AutoMessageEffects.FirstReadIsOff | backend/internal/store/auto_messages.go:784-869 | The first read of a group's configuration creates one that is never due, with an interval of 30 minutes, and which administrators may manage. |
| AutoMessageEffects.ReadsChangeNothing | backend/internal/automessage/service.go:140-148 | A later read changes nothing. |
| AutoMessageEffects.SaveSwitches | backend/internal/store/auto_messages.go:283-372 | After every committed save, the configuration is due at a time exactly if the save enables and the time is one given interval on or later. Flag, interval and permission are those given; without enabling, index and time stay. |
| AutoMessageEffects.ActivationSwitchesOn | backend/internal/store/auto_messages.go:374-408 | After an activation the configuration is due exactly from one interval on, at the first place; items, log, permission and last-send columns stay. |
| AutoMessageEffects.DeactivationSwitchesOff | backend/internal/store/auto_messages.go:410-423 | After a deactivation the configuration is due at no time; items, log, index, interval, time and last-send columns stay. |
| AutoMessageEffects.AddedIsLive | backend/internal/store/auto_messages.go:425-451 | The live rows after an addition are those before and one with the id, text and flag given, at the order given or behind the live ones. |
| AutoMessageEffects.UpdateTouchesOneRow | backend/internal/store/auto_messages.go:453-477 | A successful update gives the live row of its id the text and flag, and changes no other row, no order and no schedule. |
| AutoMessageEffects.DeleteMarksOneRow | backend/internal/store/auto_messages.go:479-499 | A successful deletion marks the row of its id and changes nothing else of any row. |
| AutoMessageEffects.SortChangesPlacesOnly | backend/internal/store/auto_messages.go:501-548 | A successful sort changes places and nothing else of any row or of the schedule. |
| AutoMessageEffects.FailedEditsChangeNothing | backend/internal/store/auto_messages.go:453-548 | An update, deletion or sort that fails changes nothing but a first configuration. |
| AutoMessageEffects.DetailShows | backend/internal/store/auto_messages.go:230-253 | The detail shows the stored configuration and the live items in order, and has a next item exactly if some item is enabled. |
| AutoMessageEffects.NextStandsAtIndex | backend/internal/store/auto_messages.go:719-732 | What is sent next stands in the rotation at the stored index, or first if that is out of range, at the slot the configuration is due. |
| AutoMessageEffects.IdIsText | backend/internal/store/auto_messages.go:725-730 | The business id of what is sent next is the text of its configuration, slot, index and item, in this order. |
| AutoMessageEffects.IdleAttemptChangesNothing | backend/internal/store/auto_messages.go:661-663 | An attempt that is not due changes nothing. |
| AutoMessageEffects.DissolvedAttempt | backend/internal/store/auto_messages.go:670-690 | An attempt for a dissolved group sends nothing, logs why in log and summary, and leaves a configuration that is never due. |
| AutoMessageEffects.EmptyAttempt | backend/internal/store/auto_messages.go:692-716 | An attempt without an enabled item sends nothing, logs why in log and summary, and is due again exactly from one interval on. |
| AutoMessageEffects.SendingAttempt | backend/internal/store/auto_messages.go:719-766 | Any other attempt logs the text, place, status and error code of what it sent, in log and summary, and is due again exactly from one interval on: at the next place after a success, at the same one after a failure. |
| AutoMessageService.ValidateConfigParams | backend/internal/automessage/service.go:333-374 | The loop reports the first violated rule of the configuration, its modes and its items. |
| AutoMessageService.NormalizeInputs | backend/internal/automessage/service.go:376-401 | Rewrites the caller's items in place into the normalised ones. |
| AutoMessageService.NormalizingIsIdempotent | backend/internal/automessage/service.go:376-401 | Normalising twice changes nothing more, and the order written down is the one the store would have chosen. |
| AutoMessageService.AcceptedModesAreDefault | backend/internal/automessage/service.go:333-401 | Whatever passes the checks is normalised to the one send mode, first-send mode and content type there are. |
| AutoMessageEffects.ConfigIsAcceptedIff | backend/internal/automessage/service.go:333-374 | A configuration is accepted exactly with an interval of 5 to 1440 minutes, known modes, at most 100 items of 1 to 1000 characters, and an enabled item if it is enabled. |
| AutoMessageEffects.ItemIsAcceptedIff | backend/internal/automessage/service.go:361-374 | An item is accepted exactly with 1 to 1000 characters of text and no other content type than text. |
| AutoMessageEffects.TrimmedText | backend/internal/automessage/service.go:394-401 | Normalising an item cuts the space around its text and nothing else; id, order and flag stay. |
| AutoMessageEffects.SaveRequest | backend/internal/automessage/service.go:150-158 | A save request is carried out exactly if it is accepted, its version is absent or current and its ids are stored; the listing then shows its items without surrounding space. |
| AutoMessageEffects.ResolvedInputShows | backend/internal/store/auto_messages.go:298-343 | What a saved item becomes: its own id or a new one, its trimmed text, its flag, and its order or place. |
| AutoMessageEffects.AddRequest | backend/internal/automessage/service.go:181-196 | An add request is carried out exactly while there are fewer than 100 live items and the item is accepted, and adds it trimmed. |
| AutoMessageEffects.UpdateRequest | backend/internal/automessage/service.go:198-207 | An update request is carried out exactly if the item is accepted and a live row of the id changes by it. |
| AutoMessageEffects.DeleteRequest | backend/internal/automessage/service.go:209-215 | A delete request is carried out exactly if the id has a live row. |
| AutoMessageEffects.SortRequest | backend/internal/automessage/service.go:217-226 | A sort request is carried out exactly on the permutations of all stored ids that are not empty. |
| AutoMessageEffects.EnableRequest | backend/internal/automessage/service.go:160-172 | An activation is refused exactly for an interval out of range or for want of an enabled item, and then changes nothing. |
| AutoMessageEffects.DisableRequest | backend/internal/automessage/service.go:174-179 | A deactivation is always carried out. |
| AutoMessageService.StepKeeps | backend/internal/automessage/service.go:150-226 | Every request and every attempt keeps the interval in 5..1440, a time on every enabled configuration, at most 100 live items, different ids, and never lowers the version. |
| AutoMessageService.OverlappingAddsKeepLimitIff | backend/internal/automessage/service.go:181-195 | Adds that were all let in on the same rows keep the limit of live items exactly when there was room for all of them. |
| AutoMessageService.ReachableConfigsAreKept | backend/internal/automessage/service.go:150-226 | The same for every configuration reached from nothing. |
| AutoMessageService.EditsRestoreIndex | backend/internal/store/auto_messages.go:929-948 | After a successful update, delete or sort the index is in range or nothing is enabled. |
| AutoMessageService.StepBumpsIff | backend/internal/store/auto_messages.go:283-548 | Which steps raise the version: exactly the ones listed. |
| AutoMessageService.StaleSaveConflictsIff | backend/internal/store/auto_messages.go:289-297 | Over any run, a save with an earlier positive version conflicts exactly when a version-raising step came in between. |
| AutoMessageService.RunKeepsSummary | backend/internal/store/auto_messages.go:665-766 | Over any run the last-send columns repeat the last log row, and the log only grows. |
| AutoMessageRotation.PreviewIsNextSend | backend/internal/store/auto_messages.go:230-253 | The previewed item is live, enabled and the one the next attempt sends. |
| AutoMessageRotation.NoPreviewIffNothingToSend | backend/internal/store/auto_messages.go:692-716 | There is no preview exactly when a due attempt would log that it has nothing to send. |
| AutoMessageRotation.FirstSendAfterActivation | backend/internal/store/auto_messages.go:374-408 | After an activation the configuration is due exactly from one interval on, starting with the first item. |
| AutoMessageRotation.FirstSendAfterSave | backend/internal/store/auto_messages.go:283-372 | The same after a save that enables. |
| AutoMessageRotation.SendsFollowRotation | backend/internal/store/auto_messages.go:719-766 | From the first turn, what the successful sends of any run of attempts add to the log is the rotation round and round, whatever was sent before and whatever failures come between. |
| AutoMessageRotation.ItemsTakeTurns | backend/internal/store/auto_messages.go:719-766 | Of what a run adds from the first turn on, the success counts of two items never differ by more than one. |
| AutoMessageBacklog.Configured | backend/internal/automessage/service.go:108-133 | A node's options are always usable, and usable ones are kept. |
| AutoMessageBacklog.ShardsPartitionIff | backend/internal/store/auto_messages.go:601-625 | A group is in exactly one shard exactly when its id is not negative, is a multiple of the shard count, or there is one shard. |
| AutoMessageBacklog.ListDueIsEarliest | backend/internal/store/auto_messages.go:601-634 | The listing holds the soonest due configurations of the shard, ordered, as many as the batch allows. |
| AutoMessageBacklog.LockTable.Acquire | backend/internal/automessage/service.go:265-275 | The lock is taken, for its time to live, exactly when nobody holds it or the holder's time is up, and the lock service works; an error leaves it alone. |
| AutoMessageBacklog.LockTable.Release | backend/internal/automessage/service.go:305-314 | The lock is deleted exactly when it still holds the caller's request id and the lock service works. |
| AutoMessageBacklog.ProcessDue | backend/internal/automessage/service.go:248-303 | A round takes the listed groups in order: one whose lock is held elsewhere or cannot be acquired is skipped, any other is processed once and its lock released, unless the release fails. |
| AutoMessageRounds.OptionsBecome | backend/internal/automessage/service.go:108-133 | Without usable options a node takes 500 groups a round, holds a lock for 120 seconds, and is shard 0 of 1. |
| AutoMessageRounds.ListedInOrder | backend/internal/store/auto_messages.go:601-634 | Listed groups are enabled, due and of the shard, in the order of their times and positions; a group of that kind is left out only for a full batch of groups before it. |
| AutoMessageRounds.RoundAttemptsListed | backend/internal/automessage/service.go:248-303 | A round under any locks attempts each listed group whose lock can be had once, as the store does, and releases the lock or leaves a lease of its own; every other group keeps its rows and its lock. |
| AutoMessageBacklog.RoundDrains | backend/internal/automessage/service.go:248-263 | With the locks free and working, D due configurations and a batch of B leave max(0, D - B) due, none sooner than a processed one. |
| AutoMessageBacklog.RoundsDrain | backend/internal/automessage/service.go:248-263 | n rounds at the same reading leave max(0, D - nB) due. |
| AutoMessageBizId.BizIdIsInjective | backend/internal/store/auto_messages.go:725-730 | The business id text determines configuration, slot, index and item. |
| AutoMessageScheduler.StepKeepsRowLock | backend/internal/store/auto_messages.go:650-663 | Every step keeps: at most one open transaction, and what it read is what is stored. |
| AutoMessageScheduler.StepKeepsSlots | backend/internal/store/auto_messages.go:752-766 | Every step keeps: between configuration edits, slots lie an interval or more after the attempt before them. |
| AutoMessageScheduler.StepKeepsLeases | backend/internal/automessage/service.go:265-314 | Every step keeps: request ids in use differ, and a held key belongs to the worker that set it. |
| AutoMessageScheduler.StepKeepsDeliveries | backend/internal/store/auto_messages.go:719-766 | Every step keeps: delivered ids are committed, pending, or were orphaned by an edit or a dissolution. That ids tell attempts apart is AutoMessageDeliveries.IdsMatchIff. |
| AutoMessageScheduler.StepKeepsSends | backend/internal/store/auto_messages.go:719-750 | Every step keeps: what was sent is this configuration's, at the slot its attempt is logged at, delivered ids are the ids of what was sent, and a logged success was accepted. |
| AutoMessageScheduler.StepKeepsLog | backend/internal/store/auto_messages.go:737-750 | Every step keeps: after the rows it began with, the stored log shows the attempts one for one, with time, status, item, index and text. |
| AutoMessageSafety.OneAttemptPerSlot | backend/internal/store/auto_messages.go:650-767 | Over every run with stale clocks, expired leases and crashes, two attempts without a configuration edit in between have different slots and are an interval apart. |
| AutoMessageEpochs.UneditedSlotsDiffer | backend/internal/store/auto_messages.go:650-767 | Over any stretch of a run in which no request changes the configuration row, two attempts have different slots and are an interval apart. |
| AutoMessageEpochs.StepCountsEpochs | backend/internal/store/auto_messages.go:650-767 | A step logs at most one attempt, under the epoch it happens in; only a request that changes the configuration row begins another epoch, and changing edits and dissolutions are counted one by one. |
| AutoMessageSafety.LogShowsAttempts | backend/internal/store/auto_messages.go:650-767 | After any run the stored log is the rows it began with and one row for each attempt. |
| AutoMessageSafety.NoCatchUpBurst | backend/internal/store/auto_messages.go:752-762 | However long a downtime, among the stored log rows between two edits a span of time holds at most one more than the intervals that fit in it. |
| AutoMessageSafety.OnlyTheOwnerReleases | backend/internal/automessage/service.go:305-314 | In every reachable state only the owner's release or the expiry removes a lease. |
| AutoMessageSafety.LeaseCanExpire | backend/internal/automessage/service.go:265-275 | A run of four steps reaches a state in which a worker is past acquiring, its lease has expired, and another worker waits for the lock. |
| AutoMessageSafety.SharedRequestReleasesAnothersLease | backend/internal/automessage/service.go:265-275 | In that state, a second worker that acquires the lock under the first one's request id, which no run allows, loses its lease to the first one's release. |
| AutoMessageSafety.OneWorkerAtATime | backend/internal/automessage/service.go:265-314 | While no lease expires, at most one worker is between acquiring and releasing. |
| AutoMessageSilence.SwitchedOffIsSilent | backend/internal/store/auto_messages.go:650-767 | Over every run with any number of workers: from a deactivation, or a committed save that does not enable, nothing is sent and nothing is logged until a request switches the configuration on. |
| AutoMessageSlots.EditKeepsIncreaseIff | backend/internal/store/auto_messages.go:374-408 | An edit keeps the slots increasing exactly when it sets no time or one beyond the last slot attempted. |
| AutoMessageSlots.StepKeepsIncreaseIff | backend/internal/store/auto_messages.go:650-767 | Any step keeps the slots increasing exactly unless it is an untimely edit, whatever clocks anybody reads. |
| AutoMessageSlots.SlotsIncreaseAcrossEdits | backend/internal/store/auto_messages.go:374-408 | Over every run whose edits are timely in that sense, the slots of the whole log strictly increase. |
| AutoMessageSlots.LateActivationRepeatsSlot | backend/internal/store/auto_messages.go:374-408 | A run from the start, with one activation that read its clock an interval earlier, logs one slot twice: two successes with one business id and one message kept. |
| AutoMessageDeliveries.IdsMatchIff | backend/internal/store/auto_messages.go:725-730 | Two candidates of one configuration have the same business id exactly when slot, index and item are the same. |
| AutoMessageDeliveries.SentIdsMatchIff | backend/internal/store/auto_messages.go:719-732 | Over every run, two attempts sent one id exactly when they are at one slot with the same index and item. |
| AutoMessageDeliveries.SentIdsDiffer | backend/internal/store/auto_messages.go:719-732 | Over every run, no two attempts between the same configuration edits sent one id. |
| AutoMessageDeliveries.TimelySentIdsDiffer | backend/internal/store/auto_messages.go:719-732 | Over every run with timely edits, no two attempts at all sent one id. |
| AutoMessageDeliveries.PendingIsNewSinceEdit | backend/internal/store/auto_messages.go:719-730 | The id the next attempt would send is none of the ids committed since the last configuration edit. |
| AutoMessageDeliveries.OnlyReplaysAreRecognised | docs/group-auto-message.md:349-376 | With timely edits, if the message service has a message under the id of what a transaction sends, it was sent for the same slot, index and item by a transaction that did not commit. |
| AutoMessageDeliveries.LoggedSuccessesWereDelivered | backend/internal/store/auto_messages.go:732-750 | Every success in the log was accepted when it was sent, whatever was sent under its id is for its slot, index and item, and with timely edits no other attempt sent that id. |
| AutoMessageDeliveries.DeliveriesStayWithinAttempts | docs/group-auto-message.md:349-376 | Delivered ids lie in the committed attempts plus at most one pending one, and at most one more for each edit or dissolution; with timely edits the pending one is none of the committed. |
| AutoMessageReplays.ReplayRepeatsMessage | backend/internal/store/auto_messages.go:719-732 | After a crash between send and commit, the next attempt on unedited rows sends the same message under the same id. |
| AutoMessageReplays.EditKeepsPendingId | backend/internal/store/auto_messages.go:453-477 | Editing the text that is next keeps its slot, its turn and so its business id. |
| AutoMessageReplays.EditedReplayKeepsId | backend/internal/store/auto_messages.go:453-477 | A request that edits the text that is next changes neither what was sent nor the id of what comes next, only its text; it comes out the same exactly when the text does. |
| AutoMessageReplays.EditBeforeReplayLosesText | backend/internal/store/auto_messages.go:719-750 | A run from the start in which a worker dies after sending and the text is edited: the log shows the new text as a success, the first message under its id has the old one, and one message is kept. |
| AutoMessageTexts.EditKeepsTextsIff | backend/internal/store/auto_messages.go:453-477 | An edit keeps logged, sent and stored texts in agreement exactly when it leaves the text of every item that was sent, or is being sent, and is not logged. |
| AutoMessageTexts.StepKeepsTextsIff | backend/internal/store/auto_messages.go:650-767 | Any step keeps them in agreement exactly unless it is an edit that does not. |
| AutoMessageTexts.LoggedTextsAreKept | backend/internal/store/auto_messages.go:719-750 | Over every run with timely edits that leave such texts, the text the message service keeps under the id of a logged success is the one its log row shows. |
| AutoMessageRefinement.UninterruptedAttemptIsProcessed | backend/internal/store/auto_messages.go:650-767 | Begin, send and commit without interruption leave the rows the store operation leaves. |
| AutoMessageRefinement.RunIsAttempts | backend/internal/store/auto_messages.go:650-767 | Without edits, any run of any number of workers leaves the rows that its attempts leave when made one after another. |
| AutoMessageRefinement.WorkersFollowRotation | backend/internal/store/auto_messages.go:719-766 | So what any number of workers successfully send from the first turn on is the rotation round and round. |
| AutoMessageRefinement.WorkersTakeTurns | backend/internal/store/auto_messages.go:719-766 | And the success counts of two items never differ by more than one. |
| AxmlText.ReadWriteLength8 | backend/internal/httpapi/apk_manifest.go:163-174 | Reading inverts writing on every length up to 0x7fff, whatever follows. |
| AxmlText.ReadWriteLength16 | backend/internal/httpapi/apk_manifest.go:176-189 | Reading inverts writing on every length up to 0x7fffffff, whatever follows. |
| AxmlText.WriteReadLength8 | backend/internal/httpapi/apk_manifest.go:163-174 | The bytes read are the written ones exactly when the short form was not passed over. |
| AxmlText.WriteReadLength16 | backend/internal/httpapi/apk_manifest.go:176-189 | The same for the 16-bit prefix. |
| AxmlText.DecodeUtf16Inverts | backend/internal/httpapi/apk_manifest.go:130-161 | Decoding UTF-16 code units gives back every text, surrogate pairs included. |
| AxmlText.LoneSurrogateIsReplaced | backend/internal/httpapi/apk_manifest.go:147-161 | Behind any text, a surrogate that is not half of a pair becomes one replacement character, and decoding goes on behind it. |
| AxmlText.Utf8OfInverts | backend/internal/httpapi/apk_manifest.go:160 | The bytes of a character in the decoded string give the character back, and there are no spare ones. |
| Decimal.AtoiReadsIff | backend/internal/httpapi/apk_manifest.go:262-266 | A text is read as a number exactly if it is an optional sign, any zeros and the decimal text of a number that fits 64 bits. |
| AxmlMeaning.AttributeIsRead | backend/internal/httpapi/apk_manifest.go:218-267 | An attribute means by the text of its name and the code of its type: a decimal or hexadecimal number is its data, any other version code the number its text writes out, and a text the raw one, else the typed one. |
| AxmlMeaning.PoolIsReadIff | backend/internal/httpapi/apk_manifest.go:100-128 | A pool is read, as the texts its offsets lead to in order, exactly if header, offset table and start of texts fit the chunk and every offset leads to a readable text. |
| AxmlMeaning.ManifestIsReadIff | backend/internal/httpapi/apk_manifest.go:191-239 | An element is a manifest with given metadata exactly if header and attributes fit, its name is manifest, every version code can be read, and the last attribute of each name says so. |
| AxmlMeaning.OtherElementsArePassedIff | backend/internal/httpapi/apk_manifest.go:191-204 | Any other element is passed over exactly if its header fits, whatever its attributes. |
| AxmlMeaning.WalkWithoutManifest | backend/internal/httpapi/apk_manifest.go:66-98 | A walk none of whose chunks ends it fails for a malformed chunk behind them, or for want of a manifest element. |
| AxmlParser.DecodeString | backend/internal/httpapi/apk_manifest.go:130-161 | The loop over code units computes the decoded string or the error, reading only its data. |
| AxmlParser.ParseStringPool | backend/internal/httpapi/apk_manifest.go:100-128 | The loop over offsets computes the pool or the error. |
| AxmlParser.ParseStartElement | backend/internal/httpapi/apk_manifest.go:191-239 | The loop over attributes computes what the element is read as; which elements are manifests with which metadata is AxmlMeaning.ManifestIsReadIff. |
| AxmlParser.ParseManifest | backend/internal/httpapi/apk_manifest.go:55-98 | The walk over chunks terminates on every byte sequence and computes the outcome of the parse, which AxmlEncoder.ParseEncodedDocument and AxmlParser.ParseIsDecidedByFirstManifest say without it. |
| AxmlParser.FoundIffManifest | backend/internal/httpapi/apk_manifest.go:191-239 | A chunk ends the walk with metadata exactly when it is a readable manifest element with a positive version code. |
| AxmlParser.SuccessIsDecidedByFirstManifest | backend/internal/httpapi/apk_manifest.go:55-98 | For every byte sequence, a walk succeeds exactly when it reaches a readable manifest element with a positive version code under the latest pool before it. |
| AxmlParser.ParseIsDecidedByFirstManifest | backend/internal/httpapi/apk_manifest.go:55-98 | The same for a parse of a whole file. |
| AxmlParser.WalkIgnoresRest | backend/internal/httpapi/apk_manifest.go:55-98 | A walk that succeeds reads a prefix of its data; whatever follows that prefix, the result is the same. |
| AxmlParser.ParseIgnoresRest | backend/internal/httpapi/apk_manifest.go:55-98 | So does a parse, except that a document header claiming to be as long as the file or longer bounds what may follow. |
| AxmlEncoder.DecodeEncodedText | backend/internal/httpapi/apk_manifest.go:130-161 | Decoding an encoded text gives it back, in both encodings, whatever follows. |
| AxmlEncoder.ParseEncodedDocument | backend/internal/httpapi/apk_manifest.go:55-239 | Parsing the bytes of any encodable document yields what the document means, whatever header, gaps and longer entries it has; the meaning of attributes is given by their type codes and names, not by the parser. |
| AxmlEncoder.InsertionBeforePoolChangesNothing | backend/internal/httpapi/apk_manifest.go:55-98 | Chunks before a string pool that neither end the walk nor fail change nothing. |
| AxmlEncoder.OtherChunksPassThrough | backend/internal/httpapi/apk_manifest.go:55-98 | Chunks of other kinds change nothing wherever they stand. |
| AxmlEncoder.ManifestRoundTrip | backend/internal/httpapi/apk_manifest.go:55-239 | For every package, version name and positive version code, as a decimal or hexadecimal number, a typed text or a raw text, in either encoding, parsing returns exactly those values: after chunks that do not end the walk, other pools and elements included, with chunks between pool and manifest that leave the walk at this pool, and before any chunks at all. |
| LoginLimiter.Limiter.Allow | backend/internal/httpapi/login_limiter.go:36-58 | Refuses exactly when the key's open window has reached the limit and its last failure is within the block. |
| LoginLimiter.Limiter.RecordFailure | backend/internal/httpapi/login_limiter.go:60-83 | The table keeps agreeing with the history extended by this failure. |
| LoginLimiter.Limiter.SweepExpired | backend/internal/httpapi/login_limiter.go:127-143 | At most once a minute removes exactly the expired entries, and none that a call could tell from a missing one. |
| LoginLimiter.Replay | backend/internal/httpapi/login_limiter.go:36-91 | A limiter driven by any call sequence under a non-decreasing clock answers each call as the history does. |
| LoginLimiter.KeysDoNotInterfere | backend/internal/httpapi/login_limiter.go:36-91 | Two runs that agree on one key's calls agree on its verdict. |
| LoginLimiter.OpenWindowIsSuffix | backend/internal/httpapi/login_limiter.go:60-83 | The counted failures are the latest ones, back to the one that found the window before it over. |
| LoginLimiter.CallsCount | backend/internal/httpapi/login_limiter.go:36-91 | A failure of the key adds one to what counts against it, a success clears it, and no other call matters. |
| LoginLimiter.BurstIsRefusedIff | backend/internal/httpapi/login_limiter.go:60-83 | Failures within one window shut the key out exactly from the limit on and until the block after the last of them is over, whatever earlier windows held. |
| LoginLimiter.SuccessForgives | backend/internal/httpapi/login_limiter.go:85-91 | After a success the key is let in. |
| LoginLimiter.ExpiredIff | backend/internal/httpapi/login_limiter.go:127-144 | An entry is swept exactly if its window and its block are both over. |
| LoginLimiter.FailureLiftsBlockIff | backend/internal/httpapi/login_limiter.go:60-83 | A failure recorded during a running block, which takes two logins at once, lifts it exactly when the window is over and one failure is below the limit. |
| Releases.NormalizingIsIdempotent | backend/internal/store/releases.go:86-151 | Normalised platform, channel and architecture names are fixed points. |
| Releases.UpdateLevelIsFixed | backend/internal/store/releases.go:110-121 | So are normalised update levels. |
| ReleaseEffects.PlatformsAre | backend/internal/store/releases.go:86-95 | A platform is android, or windows under one of four names, without regard to case and surrounding space; any other is refused. |
| ReleaseEffects.ChannelsAre | backend/internal/store/releases.go:97-108 | A channel is stable, which is also the default, beta or internal; any other is refused. |
| ReleaseEffects.LevelsAre | backend/internal/store/releases.go:110-121 | An update level is one of three under seven spellings; any other is refused. |
| ReleaseEffects.ArchsAre | backend/internal/store/releases.go:123-151 | An architecture is exactly one of the spellings its platform has for it. |
| Releases.CreatedIsWellFormed | backend/internal/store/releases.go:204-281 | A created row has normalised names, a trimmed non-empty version and path, a positive version code and a storage key. |
| ReleaseEffects.CreatedIff | backend/internal/store/releases.go:204-238 | A release is created exactly from a request with known names, a version, a positive code, a minimum, file, size and digest, under a path that is not taken. |
| ReleaseEffects.CreatedShows | backend/internal/store/releases.go:239-281 | The columns of a new row, each under its own name: names normalised, texts trimmed, the path in place of a missing storage key, a draft. |
| ReleaseEffects.RefusedFor | backend/internal/store/releases.go:204-238 | A request is refused for the first of its faults in the source's order. |
| ReleaseEffects.PublishedShows | backend/internal/store/releases.go:458-497 | Publishing marks the release published now and the other rows of its key drafts, changes nothing else of any row, and moves the pointer of the key and no other. |
| ReleaseEffects.UnknownIsNotPublished | backend/internal/store/releases.go:469-474 | A release that does not exist is not published. |
| Releases.ScanKeepsCreated | backend/internal/store/releases.go:499-551 | Reading a created row back changes nothing. |
| ReleaseEffects.ScannedShows | backend/internal/store/releases.go:543-549 | Any stored row is read back with its names normalised, unknown ones empty, and its path in place of a missing storage key; nothing else differs. |
| Releases.ReleaseStore.CreateAppRelease | backend/internal/store/releases.go:204-281 | Adds one draft or reports the first violated rule and adds nothing. |
| Releases.ReleaseStore.PublishAppRelease | backend/internal/store/releases.go:458-497 | Publishes the release, makes the others of its key drafts and moves the pointer, or changes nothing. |
| Releases.ReleaseLookupKeys | backend/internal/store/releases.go:562-576 | The loop leaves out a key that is already there; in which order a lookup falls back is ReleaseLookups.NearestPointerWins. |
| Releases.ReleaseStore.GetLatestAppReleaseFor | backend/internal/store/releases.go:347-377 | The loop over the keys finds the release the first pointer in the fallback order names, which is said from the pointers in ReleaseLookups.NearestPointerWins. |
| Releases.ReleaseStore.GetNewestAppReleaseFor | backend/internal/store/releases.go:379-409 | Answers with the newest release of the first fallback key that has one. |
| ReleaseLookups.NearestPointerWins | backend/internal/store/releases.go:347-377 | Under normalised names a lookup finds a release exactly if the pointer of (platform, channel, arch) names it, or there is none and that of (platform, channel, universal) does, or (platform, stable, arch), or (platform, stable, universal). |
| ReleaseLookups.LatestFollowsFallback | backend/internal/store/releases.go:562-576 | The same as one answer, and nothing is found exactly if none of the four has a pointer. |
| ReleaseLookups.NearestRowsWin | backend/internal/store/releases.go:379-456 | The newest lookup finds the row that the order of the query puts first among those of the first of these four keys that has any. |
| ReleaseLookups.NewestExactIff | backend/internal/store/releases.go:432-456 | Among the rows of a key, the one found is first by descending code, published before drafts, then by descending date, creation and id. |
| ReleaseLookups.LookupsNormalize | backend/internal/store/releases.go:347-358 | Both lookups normalise their names first, and find nothing under unknown ones. |
| Releases.NewestIsUnique | backend/internal/store/releases.go:432-456 | The newest release is the one that comes before every other of its key. |
| Releases.NewerIsTotal | backend/internal/store/releases.go:444-448 | The order of the newest releases is strict and total on different ids. |
| Releases.RunKeepsSound | backend/internal/store/releases.go:458-497 | After any run of creates and publishes, exactly the releases their key's pointer names are published, and every pointer leads to a release of its key. |
| Manifests.BaseIsUsable | backend/internal/httpapi/updates.go:394-406 | Every request resolves against a non-empty base. |
| ManifestEffects.BaseIs | backend/internal/httpapi/updates.go:393-410 | The base is the configured address without slashes behind it, else the scheme and host of the request. |
| ManifestEffects.RelativeIsResolved | backend/internal/httpapi/updates.go:385-411 | An address that is not absolute is put behind the base, without the dots and slashes in front of it. |
| ManifestEffects.OthersAreKept | backend/internal/httpapi/updates.go:385-392 | An empty address and an absolute one stay, without the space around them. |
| ManifestEffects.ReleaseIsFetchedFrom | backend/internal/httpapi/updates.go:244-253 | A release is fetched from its own absolute address, else from its storage path below /releases/ at the base. |
| ManifestEffects.ManifestShows | backend/internal/httpapi/updates.go:244-284 | Each column of a release stands in its manifest under its own name; a missing level is optional, a missing title the product and version, and a required release is forced. |
| Manifests.ResolvingIsStableIff | backend/internal/httpapi/updates.go:385-411 | Resolving an address twice changes it no more exactly when it is absolute or the base is only dots and slashes. |
| Manifests.NormalizeLoadedManifest | backend/internal/httpapi/updates.go:286-357 | The repairs and checks of a loaded manifest, field by field. |
| ManifestEffects.LoadedShows | backend/internal/httpapi/updates.go:286-357 | A file's manifest is taken as another exactly if each field of it is repaired as the source does and the checks hold: the whole result, field by field. |
| Manifests.ManifestReadsBack | backend/internal/httpapi/updates.go:244-357 | Reading a release's manifest back changes nothing but the address, which is resolved once more. |
| Manifests.ManifestIsFixedIff | backend/internal/httpapi/updates.go:244-357 | It is read back unchanged exactly when its address is absolute or the base is only dots and slashes. |
| Manifests.ManifestFiles.WriteLatestUpdateManifest | backend/internal/httpapi/updates.go:173-216 | Writes the targets in order and stops at the first that cannot be written. |
| ManifestEffects.TargetsAre | backend/internal/httpapi/updates.go:201-210 | A publication writes the file of its key, and for the stable universal build also those of the platform, none twice. |
| ManifestEffects.WritesUpToFailure | backend/internal/httpapi/updates.go:205-216 | The targets before the first that cannot be written hold the new manifest, and no other file changes. |
| Manifests.ManifestFiles.LoadUpdateManifestFile | backend/internal/httpapi/updates.go:131-160 | Answers with the first candidate file that loads, else with the error of the last. |
| ReleaseLookups.FilesFollowFallback | backend/internal/httpapi/updates.go:131-160 | The files are tried in the same fallback order, then the file of the platform alone and, for Windows, the one named pc; without any, the answer is the error of the last. |
| Manifests.LoadUpdateManifest | backend/internal/httpapi/updates.go:94-129 | A pointed release, else the newest row, else a file. |
| ReleaseLookups.PointersComeFirst | backend/internal/httpapi/updates.go:94-129 | The pointed release is answered before the newest row, and either before any file. |
| ManifestCache.FilesFollowPointers | backend/internal/httpapi/updates.go:131-160 | Where the own files of the lookup's pointed keys are the pointed releases' manifests, file lookup ends at the same release as pointer lookup, or nowhere. |
| ManifestCache.AnswersAgreeIff | backend/internal/httpapi/updates.go:94-160 | There, with and without a database the endpoints answer alike exactly when the pointed release's address, resolved again, is the reader's own, or when no lookup key has a pointer and none has a release. |
| ManifestCache.StoredAddressIsSteady | backend/internal/httpapi/updates.go:244-253 | An address stored as an absolute one is the reader's own, whoever wrote it. |
| ManifestCache.DraftIsServedIff | backend/internal/httpapi/updates.go:107-122 | An unpublished release is served exactly while no lookup key has a pointer. |
| ManifestPublications.RunHolds | backend/internal/httpapi/admin_releases.go:256-289 | Over every interleaving of uploads and publications: a pointer names the release of its key's last publication, and a file is the manifest of the row its last writer had read. |
| ManifestPublications.FileShowsPointedIff | backend/internal/httpapi/admin_releases.go:275-289 | After every interleaving, a file is the manifest of the release its key's pointer names, under any base at all, exactly when the key's last publication wrote it last, or another one of the same release that read it with the time of publication it has now. |
| ManifestPublications.FileShowsPointedIffLast | backend/internal/httpapi/admin_releases.go:275-289 | If no release is published twice, that is exactly when the key's last publication wrote the file last. |
| ManifestPublications.RunsAreCached | backend/internal/httpapi/admin_releases.go:256-289 | After every interleaving, the keys whose file is written for their pointer have the pointed release's manifest in it, and files exist only for pointed keys. |
| ManifestPublications.WrittenLookupFollowsPointers | backend/internal/httpapi/updates.go:131-160 | After every interleaving, where the own files of the lookup's pointed keys are written for their pointers, file lookup ends like pointer lookup. |
| ManifestPublications.PointedKeyAnswersIff | backend/internal/httpapi/updates.go:131-160 | For a key with a file of its own, file lookup answers with the pointed release as it was published last exactly when that file was last written for the pointer. |
| ManifestPublications.UndisturbedIsWriteTargets | backend/internal/httpapi/updates.go:205-216 | A handler that nobody disturbs leaves the files, and ends as, the loop over the targets does. |
| ManifestPublications.UnwrittenPublicationLeavesFiles | backend/internal/httpapi/admin_releases.go:275-289 | A publication whose file cannot be written moves the pointer and leaves every file; what the file of its key then holds of another release is not the pointed one's. |
| ManifestOverlap.OverlapLeavesOtherFile | backend/internal/httpapi/admin_releases.go:275-289 | For any two accepted uploads of a key with one file, a run from nothing in which both are published, everything succeeds, and the latest pointer of the key leads to the second while the file is the manifest of the first. |
| ManifestOverlap.OverlapIsPossible | backend/internal/store/releases.go:204-281 | There are two such uploads. |
| ManifestTurns.PointedIsWritten | backend/internal/httpapi/admin_releases.go:256-289 | Where a publication starts only when no other of its key is open, and writes succeed, every pointed key without an open publication has its pointed release's manifest in its file. |
| ManifestTurns.RunFilesFollowPointers | backend/internal/httpapi/updates.go:131-160 | Then file lookup ends at the same release as pointer lookup, or nowhere. |
| ManifestTurns.RunAnswersAgreeIff | backend/internal/httpapi/updates.go:94-160 | And the endpoints answer alike exactly when the pointed release's address is steady, or when there is neither pointer nor release. |
| BroadcastTargets.BuildRecipientQuery | backend/internal/store/broadcast.go:575-636 | The collected conditions hold of exactly the users the specification means, and unsupported ones are refused. |
| BroadcastTargets.RecipientsAreTargets | backend/internal/store/broadcast.go:265-299 | The recipients are those users, each once, in id order. |
| BroadcastTargets.ResolveSelectedRecipients | backend/internal/store/broadcast.go:192-219 | The loop with its seen set resolves each user once and keeps the identifiers that name nobody. |
| BroadcastTargets.ResolvedNamesEachOnce | backend/internal/store/broadcast.go:192-219 | The users resolved are exactly those some identifier names, all different. |
| BroadcastTargets.BuildTargetSpec | backend/internal/broadcast/service.go:92-121 | The specification of a request, or why it has none. |
| BroadcastTargets.RequestsAreSupported | backend/internal/broadcast/service.go:92-121 | Every specification a request becomes is supported by the recipient query. |
| BroadcastTargets.SelectedRecipientsAreNamed | backend/internal/broadcast/service.go:99-113 | A selected broadcast goes to exactly the stored users some identifier names. |
| BroadcastEffects.TargetsAre | backend/internal/store/broadcast.go:575-612 | A specification means all users who are not deleted, the selected ones, or those every given filter fits, deleted ones only if asked for. |
| BroadcastEffects.RequestReaches | backend/internal/broadcast/service.go:92-121 | A broadcast goes to exactly the stored users its request means, whatever its target type. |
| BroadcastEffects.RequestIsRefusedIff | backend/internal/broadcast/service.go:92-121 | A request is refused exactly for an unknown target type, or if it selects nobody who can be found. |
| BroadcastRun.Dispatcher.ClaimNextBroadcast | backend/internal/store/broadcast.go:334-366 | Claims the oldest pending record and changes no other; a dispatcher that loses the race between select and update goes away empty-handed. |
| BroadcastEffects.ClaimedShows | backend/internal/store/broadcast.go:350-366 | A claim makes the record running and clears its error, and changes nothing else. |
| BroadcastRun.Dispatcher.CountRecipients | backend/internal/store/broadcast.go:252-263 | Counting the users that meet the query's conditions counts the recipients, or the specification is refused. |
| BroadcastRun.Dispatcher.ListRecipients | backend/internal/store/broadcast.go:265-299 | Skipping and collecting the users that meet the query's conditions yields the slice of the recipients at the offset, or the specification is refused. |
| BroadcastRun.Dispatcher.SendPage | backend/internal/broadcast/service.go:163-172 | The loop hands over a message for each recipient in turn, stores a delivery row for each whose write succeeds, and counts; to whom messages go and what rows say is BroadcastEffects.EveryTargetGetsOneMessage and BroadcastEffects.RowIs. |
| BroadcastRun.Dispatcher.ProcessNext | backend/internal/broadcast/service.go:123-185 | One turn, also when counting or a listing fails, a write fails unnoticed, or another dispatcher is first: its records, rows and messages are those of a function of the state, which BroadcastEffects states without it. |
| BroadcastEffects.MessageGoesTo | backend/internal/broadcast/service.go:163-164 | For every i, the i-th message of a run goes to the id of the i-th user it visits and carries the text of the broadcast. |
| BroadcastEffects.VisitedAreTargets | backend/internal/broadcast/service.go:149-161 | Whatever is listed or not, only users the specification means are visited, in id order. |
| BroadcastEffects.EveryTargetGetsOneMessage | backend/internal/broadcast/service.go:148-176 | When everything is listed, the users messages go to are exactly those the specification means, each gets one message, and every message carries the text of the broadcast. |
| BroadcastEffects.RowIs | backend/internal/store/broadcast.go:392-417 | A stored row shows the user's name, whether the message was accepted, and the trimmed error otherwise. |
| BroadcastEffects.RowsShow | backend/internal/store/broadcast.go:392-417 | The rows of visited users whose writes are stored are those, and no other row changes. |
| BroadcastEffects.SentRowHasMessage | backend/internal/broadcast/service.go:163-172 | A row that says sent and was not there before belongs to an accepted message of this run: to that user, with the text of the broadcast. |
| BroadcastEffects.PagingStopsAt | backend/internal/broadcast/service.go:146-176 | Paging stops at the first multiple of 200 whose listing fails, or behind the last recipient. |
| BroadcastEffects.NotedShows | backend/internal/store/broadcast.go:368-374 | Before its end a run leaves the counts of the last page whose progress was stored. |
| BroadcastEffects.RunEndsAs | backend/internal/broadcast/service.go:132-184 | How a run ends, by the first thing that goes wrong: its status, its error and its counts; it completes exactly if all goes well and some message is accepted. |
| BroadcastRun.CountsMatchDeliveries | backend/internal/broadcast/service.go:123-185 | When the recipients are listed, every one is visited once; if the end is stored, the counts add up to the recipients, and the broadcast completes exactly if some delivery succeeded; if the rows are stored too, the counts equal the sent and failed rows, whatever an interrupted run left. |
| BroadcastRun.CountsMatchRowsIff | backend/internal/broadcast/service.go:163-172 | Starting without rows, the counts of a run whose end is stored equal its sent and failed rows exactly when every row's write is stored, and exceed them otherwise. |
| BroadcastRun.UnstoredEndIsSentAgain | backend/internal/broadcast/service.go:178-184 | A run whose last write fails leaves the record running, and once it is pending again the next run visits every recipient again. |
| BroadcastRun.InterruptedDeliveriesFit | backend/internal/store/broadcast.go:392-417 | What an interrupted run leaves in the delivery table is what a rerun may start from. |
| BroadcastClaims.RunKeepsOwned | backend/internal/store/broadcast.go:334-366 | Over every interleaving, a record is worked on by at most one dispatcher, and is running meanwhile. |
| BroadcastClaims.StatusMoves | backend/internal/store/broadcast.go:184-190 | What one step can do to a status: pending leaves only by a claim, running returns to pending only by a start. |
| BroadcastClaims.EndedIsFinal | backend/internal/store/broadcast.go:376-390 | Completed and failed are never left. |
| BroadcastClaims.EachOfferIsClaimedOnce | backend/internal/store/broadcast.go:334-366 | Claims and pending states add up: each time a record becomes pending it is claimed at most once. |
| BroadcastClaims.ClaimedOnceWithoutReset | backend/internal/store/broadcast.go:184-190 | A record no reset found running is claimed at most once. |
| BroadcastClaims.ResetIsSafeIff | backend/internal/broadcast/service.go:68-90 | A start keeps ownership exactly when no other dispatcher is at work. |
| BroadcastClaims.ResetBesideWorkerClaimsTwice | backend/internal/store/broadcast.go:184-190 | Otherwise a record being delivered can be claimed again. |
| BroadcastTurns.ClaimIsSelectAndClaim | backend/internal/store/broadcast.go:334-366 | Claiming a record is selecting the oldest pending one and the conditional update, if nobody comes between them. |
| BroadcastTurns.TurnIsThreeSteps | backend/internal/broadcast/service.go:123-185 | An undisturbed turn whose end is stored does to the statuses what selecting, claiming and ending do among many dispatchers, and leaves this one idle. |
| BroadcastTurns.StartOffersAgain | backend/internal/broadcast/service.go:68-76 | A broadcast whose dispatcher crashed is offered again by the next start, as is every other one left running; ended ones stay. |
| BroadcastTurns.EnqueuedIsOffered | backend/internal/store/broadcast.go:301-332 | Enqueuing offers a new broadcast and changes nothing else. |
| StickerImport.DownloadAll | backend/internal/stickers/service.go:205-221 | All stickers, each validated and numbered by its place, or the error of the first that cannot be fetched or imported. |
| StickerEffects.FormatIs | backend/internal/stickers/service.go:313-327 | Content is WebP or PNG by its signature, else an animation or a video by its signature or its name, else refused; each with its format and MIME type. |
| StickerEffects.StickerIsTakenIff | backend/internal/stickers/service.go:291-311 | A sticker is taken, as listed and at its place, exactly with 1 to 8388608 bytes of a known format. |
| StickerEffects.StickerFailsFor | backend/internal/stickers/service.go:205-221 | A sticker can be imported exactly if its download succeeds and its content has a size and a format that are accepted. |
| StickerImport.AccessHashParts | backend/internal/stickers/service.go:602-615 | The file type of the MIME type and the random part of an access hash can both be read back, and it fits 64 bits. |
| StickerImport.AccessHashTellsFormats | backend/internal/stickers/service.go:602-615 | Equal access hashes mean equal formats among those that are imported, if the protocol's file types differ. |
| StickerEffects.HashShowsFormat | backend/internal/stickers/service.go:602-615 | The upper half of a hash is the protocol's number of the MIME type. |
| StickerImport.Importer.PersistImport | backend/internal/stickers/service.go:329-459 | The tables change only by the commit; without it the uploads are deleted again. |
| StickerImport.Importer.ImportTelegramSet | backend/internal/stickers/service.go:186-222 | A bad request or download is reported, the first fault first, and changes nothing; otherwise the numbered stickers are persisted. |
| StickerImportSafety.FailedImportRestoresIff | backend/internal/stickers/service.go:329-347 | A failed import leaves the tables alone exactly unless everything before the commit succeeded and the commit that failed took effect, and leaves storage alone exactly when the deletes work and no failed upload left its object. |
| StickerEffects.ImportCommitsIff | backend/internal/stickers/service.go:329-459 | An import commits exactly if no step of its transaction fails and no two of its stickers have the same id at Telegram, whatever the set held before. |
| StickerImportSafety.CommittedImportHolds | backend/internal/stickers/service.go:392-447 | A committed set holds exactly its stickers at positions 0, 1, 2 and so on, rows and documents pointing at their stored objects; other sets keep theirs. |
| StickerEffects.SetRowShows | backend/internal/stickers/service.go:354-385 | The set keeps its id and hash or gets new ones, takes the title and source of the import and is enabled; other sets stay. |
| StickerEffects.CommittedStickerShows | backend/internal/stickers/service.go:398-438 | Each sticker of a committed import has its row, its document and its object, all three with its content's size and type, under the key its id writes. |
| StickerEffects.RecentUsesAfter | backend/internal/stickers/service.go:387-392 | The recent uses of the replaced stickers are gone, and no others. |
| StickerEffects.EmojisAfter | backend/internal/stickers/service.go:434-446 | Every imported sticker with an emoji is found by it, trimmed, in its set; entries of replaced stickers are gone and others stay. |
| StickerEffects.DocumentsStay | backend/internal/stickers/service.go:394-397 | The documents of replaced stickers stay, as do all others. |
| StickerImportSafety.ImportKeepsLinkedIff | backend/internal/stickers/service.go:329-459 | Every sticker row keeps pointing at a stored object exactly unless a commit in doubt took effect and an upload was deleted. |
| StickerImportSafety.RunsStayLinked | backend/internal/stickers/service.go:329-459 | The same over runs of imports, failed or not. |

## Left out

- HTTP routing, JSON, JWT, gRPC, SQL text, drivers and schema migration: plumbing. A JSON file is taken to hold what was written to it.
- Permission checks (`CanManage`), the actor columns, error texts and message ids. Whether an edit changes an item's editor is a parameter.
- Database errors outside the sticker import, the broadcast run and the manifest publications.
- 64-bit and 32-bit integer ranges, except where a format fixes them; times below a second, saturation of durations and the monotonic clock.
- Hashes: the SHA-1 of a business id and its collisions, `stableRandomID`, the FNV hash of a set, SHA-256 of files.
- Lower-casing beyond ASCII and the case- and space-insensitive collation of the database; the URL parser, which is a parameter.
- Reading the APK as a zip archive, and the upload form: only the manifest inside is modelled.
- The composition of login keys from address and user name, and the mutex around the limiter.
- Listing of logs, releases, broadcasts and deliveries, invite codes, risk settings, support threads, anti-spam: thin reads and writes.
- Splitting raw identifier text into identifiers, and the SQL that finds a user by identifier, which is a parameter.
- AutoMessageStore.GroupRows.DeleteItem: takes the configuration row, the edit and the index reset as one step; in the source they are separate statements, and so for AddItem, UpdateItem and Disable.
- AutoMessageBacklog.ProcessDue: one node at a time; nodes side by side, and leases that another node takes over during a round, are the subject of AutoMessageScheduler.
- AutoMessageService.StepKeeps: the service's check of the live items and the insert are one step here; requests that overlap between them are the subject of AutoMessageService.OverlappingAddsKeepLimitIff.
- AutoMessageScheduler.StepKeepsSlots: the steps are those of one group; groups share nothing but the node's reading.
- AxmlEncoder.ManifestRoundTrip: the manifest document itself has no gaps and no longer headers or entries; with them it is the subject of AxmlEncoder.ParseEncodedDocument. A pool's texts follow its offset table at once there; where else they may stand is in AxmlMeaning.PoolIsReadIff.
- BroadcastRun.Dispatcher.ClaimNextBroadcast: only a claim of the same record comes between the two statements; any interleaving is in BroadcastClaims, where any pending record may be selected, not only the oldest.
- BroadcastRun.Dispatcher.ProcessNext: the user table does not change during a run, and a claim does not fail; the text of a failed decode, count or listing is a constant.
- Releases.ReleaseStore.CreateAppRelease: the uniqueness of storage paths compares them exactly.
- Manifests.ManifestFiles.WriteLatestUpdateManifest: an empty releases directory, which the source refuses, is a run in which no target can be written.
- StickerImport.AccessHashParts: the protocol's numbers of the file types are parameters; the module that defines them is not part of this model.
- StickerImport.Importer.PersistImport: titles, keywords, dimensions, document attributes and the `Updated` flag are not kept; document rows of replaced stickers and their objects stay, as in the source.
