# Clawket's durable conversation engine, modelled and proved

This project models how Clawket's native client keeps conversations, and two smaller transactional cores of its CLI, and proves what they promise:

- **The history store.** A rollover archives a conversation and installs its replacement through a staged file, a durable intent, an archive body, a manifest, a rollback, the current file and a cleanup. A crash or an I/O failure may fall between any two of these writes. `HistoryStore` is a class whose methods write step by step; every method also returns, as a ghost, each durable image it passed through, so "at every instant" is a statement about those images. What the disk means is given by pure functions (`Recover`, `Planned`, `Committed`, `Bound`, `Founded`), and the methods are proved against them. What its answers mean for the documents a caller reads is told in `HistoryAnswers`. What a whole call may do, with every instant it passes through, is the relation `Calls`; `HistoryRuns` takes runs of such calls, with crashes inside and between them and restarts, and proves what holds in every reachable state. (`HistoryTypes`, `HistoryDisk`, `HistoryProtocol`, `HistoryRecovery`, `HistoryRollover`, `HistorySteps`, `ConversationWrites`, `HistoryCalls`, `HistoryAnswers`, `HistoryStore`, `HistoryRuns`)
- **History reconciliation.** Which stored row an incoming row is, in what order the two sequences are shown, what stays the user's own, which producer IDs still identify anything, and which finished rows are remembered after they are dropped. What a caller sees, row by row, is told apart from the functions that compute it. (`HistoryIdentity`, `HistoryEvidence`, `HistoryWeave`, `HistoryReconciliation`, `HistoryPlaces`, `HistoryReplanning`, `HistoryMemories`, `HistoryApplication`, `HistoryMerging`, `HistoryRows`, `HistoryPrepare`, `HistoryReapplying`)
- **The outbox.** One conversation's messages, its send task, queued setting commands, the store's queue, disconnects, edits, reads, rollovers, crashes and restarts, interleaved in any order. The class `AppModel` updates the fields in place, keeps the invariant in every method and states what each guarantees; `Outbox.Next` is the same machine as a function of its state, the safety theorems quantify over all its runs, and `OutboxMeaning` tells what each event does to the messages. (`Outbox`, `OutboxSafety`, `OutboxMeaning`, `OutboxUncertainty`, `OutboxCommands`, `OutboxModel`)
- **The update transaction.** Preflight, stop, start, verify and register several runtimes, or put everything back, when any call may fail. The world's answers are an arbitrary function of the calls made so far. `UpdateScript` tells all calls of a run, `UpdateRows` what each reported row rests on. (`UpdateTransaction`, `UpdateSafety`, `UpdateReport`, `UpdateScript`, `UpdateRows`, `UpdateActivation`)
- **The journal's work order.** Merging a conversation's history order into the journal by renumbering; `WorkPlaces` tells for any two records which stands first afterwards. (`StableSort`, `WorkSequences`, `WorkOrder`, `WorkOrderLaws`, `WorkOrderMerge`, `WorkPlaces`, `WorkJournal`)
- **Following logs.** A snapshot of a file's end and polls of what is appended, against one split of the same bytes. (`LogText`, `LogFollow`, `LogMeaning`, `LogView`)

## How the code is represented

- A digest is injective: it carries the bytes it was taken of; the names of attachments are digests of their places among other things, so they differ. An encoder is any size function that keeps valid manifests and intents within 64 KiB; decoding inverts it. A byte string is its meaning, a spelling (so that two byte strings may decode alike) and a length.
- Text is its UTF-8 bytes. The source compares by those bytes almost everywhere; row IDs and dictionary keys use Swift string equality, which also identifies canonically equivalent spellings. The model does not.
- UUIDs are parameters. Where the code relies on them never repeating (new message IDs, new epochs) that is a precondition or a branch; where it does not check (the archive ID of a rollover) nothing is assumed.
- The store's FIFO lock is modelled by running its operations one at a time; in the outbox the documents that wait for it are a queue.
- The values store replaces a file atomically; the temporary of such a replacement is counted as in flight. The history directory publishes without replacing, may leave a temporary behind, and reads of an entry the store did not name fail. File descriptors, permissions, symbolic links and directory synchronisation are not represented.
- The order in which a dictionary yields its groups is arbitrary: it is a parameter that the methods choose freely.
- Access, capability, navigation and model checks of the outbox are arbitrary booleans at each point where the code asks for them. The runtime answers a send in any of six ways.
- An outbox event may happen whenever the code could let it happen or more often (a queue drain, a save or a merge at any time). That only adds runs.
- Orders of records with equal keys are those of a stable sort.

## What turned out not to hold as simply as it reads

- `rollover` draws the archive's ID and never checks it. Once its intent is published, recovery completes the rollover if and only if no manifest stands under that ID; otherwise every later recovery is refused, for good, while nothing is overwritten (`IntentCommitsIffFresh`, `StrandedForever`, `RefusalOverwritesNothing`). In every reachable state a restart has somewhere to recover to if and only if no rollover is stranded so (`RunsRecover`); with fresh IDs none is (`FreshRunsRecover`).
- The check made before a rollover counts two copies of what it writes, but not the temporary a crash leaves beside them. When the original outweighs its replacement by more than the reserve, the recovery after a crash can exceed 64 MiB although the rollover was accepted (`RecoveryCanExceedTheLimit`); it stays within the limit if and only if the sum in `RecoveryWeighs` does. With temporaries of earlier recoveries on disk the exact bound is `Peak` (`RecoveryPeaks`).
- Interrupted recoveries can each leave one more temporary until a sweep succeeds, and the directory listing refuses more than 512 entries. Recovery succeeds if and only if its entries fit (`RecoveryNeedsRoom`, `RunsRecover`); after a rollover there is always room for 255 temporaries (`PlannedIsRoomy`). There are runs that leave no room: a rollover cut off at its intent, then recoveries cut off while they publish its body (`RunsMayFill`).
- A binding or an establishing retried after a crash between its two writes repeats its footprint check, now with a rollback that is as large as the document. It succeeds if and only if that fits too (`BindingRetries`, `FoundingRetries`).
- Recovery does not depend on the poison: every call recovers before anything else, and that alone keeps every reachable disk recoverable (`CallRecovers` holds for a process whatever its flag). What the poison keeps is the knowledge of revisions: a process that went on after a failed binding could overwrite a newer revision (`WithoutPoisonRevisionsFall`). Without recovery in front, a write beside a pending intent would make every later recovery refuse (`UnfencedWriteIsFatal`).
- Reading a conversation again in a process that has noted a newer revision than the disk holds, because its write failed, returns the settled document without storing it (`HistoryStore.HistoryStore.Load`). A process that has just started always stores it.
- The source of a finished row that a head drops is not remembered when the same read, the stored rows or the memory block it: a read that reports the source twice forgets it (`RepetitionForgets`), and a later report of it in the active run is shown as running (`ForgottenSourceRunsAgain`). Exactly then (`DroppedSourcesAreRetired`).
- Planning a head again over its own result is a fixed point if and only if no row stood only by the retained older prefix, or the first row of the read had been matched. Otherwise the second plan drops those rows (`PlanningIsAFixedPoint`; `TheOlderPrefixIsDropped` is an input). The rows are matched to their places again if and only if each is recognized: no key of it is held twice on either side, and a key may speak for what is the user's own (`RematchedIffRecognized`). The same condition decides the whole application: then every row, both memories and all files are the same a second time (`ReapplyingIsAFixedPoint`).
- A setting command is queued like a message, and its caller waits to see it stored. When that write fails, or the command has lost its conversation, connection or wire by then, the command is shown as held without a look at whether a send task has taken it. Then a message whose request is on the wire reads as held, also after a restart, and the user may send it a second time with no proof that the first was not dispatched (`CommandsMaySendTwice`). In every state of a run each message that a task holds, or that may be at the backend, is shown so, if and only if no command in the run has withheld one in this way (`RunsLookSent`); what is said below of a message's sends holds for every message no command has withheld, and `past.withheld` is exactly the set of those that were (`WithheldOverRun`).
- A message that is uncertain can become held without any word from the runtime. A rollover settles a reserved message as uncertain; its task, which has not entered the wire, then finds that it has lost its scope and gives the message back as held (`UncertainBecomesHeld`). Exactly its task's own returns, with proof of non-dispatch once the request was made, a setting command's failed write or lost scope, and the adoption of a session that committed it unsent do this (`UncertainIsHeldIff`). It is queued only after that, when the user asks for it (`OutboxUncertainty.UncertainIsNotQueuedAgain`).
- A failed update can start OpenClaw again while Hermes or its relay stays down, although the comments ask for the opposite order: exactly when a running child has no captured previous entry and a running OpenClaw has one (`ServiceWaitsForItsChildren`). A target marked manual whose stop fails is reported as manual, with the reason `stop_unverified`.
- When every call of a rollback succeeds, a stopped target is back on its previous entry if and only if one was captured; without one it stays down (`QuietRollbackPutsBack`).
- A finished row whose producer ID is longer than 4096 bytes, or too many for the memory, makes the read that would drop it fail (`RememberRetired`); the same ID makes the ambiguity memory overflow instead (`MemoryIsExact`).
- A log line of exactly 256 Ki code units whose carriage return arrives before its line feed counts as oversized and is omitted, although the line fits (`CarriageReturnCounts`). A log is followed without omissions if and only if no cut after the snapshot leaves too long an unfinished line, the carriage return counted (`NarrowIsQuiet`).
- When the snapshot's window lies inside one line, nothing of that line is shown, and the first line delivered later is its tail, as if it were a line; the window counts bytes and the limit on unfinished lines counts code units, so this also happens to lines within that limit (`WindowInsideALine`, `FollowingIsBatchSplitting`).
- The snapshot sets its cursor to the size of the file, however much of the window its one read gave. After a short read the rest of the window is never read: what is delivered is one stretch of the log if and only if the read was full (`ShortReadsSkip`).

## Model

| member | source | states |
|---|---|---|
| HistoryDisk.SumSizes | apps/ios/Clawket/NativeHistoryFiles.swift:30-47 | the bytes of a directory listing are the same in whatever order its entries are added |
| HistoryDisk.CatalogIsSmall | apps/ios/Clawket/NativeHistoryTransactions.swift:264-282 | a directory that accounts for itself holds at most one body and one manifest for each archive beside the intent and stages |
| HistoryStore.HistoryStore.Put | apps/ios/Clawket/NativeHistoryFiles.swift:70-103 | publishing never replaces a file: it adds exactly the bytes, accepts an equal file, refuses another, and every instant has at most one more temporary |
| HistoryStore.HistoryStore.Remove | apps/ios/Clawket/NativeHistoryFiles.swift:105-112 | removal takes away one name and nothing else, at every instant |
| HistoryStore.HistoryStore.ArchiveOriginal | apps/ios/Clawket/NativeHistoryTransactions.swift:229-231 | body, then manifest, then both read back; every instant is one of those two publications |
| HistoryStore.HistoryStore.Install | apps/ios/Clawket/NativeHistoryTransactions.swift:229-236 | archive, rollback and current are written in this order, and every instant is one of these writes, with the temporary it has in flight |
| HistoryStore.HistoryStore.CompleteHistory | apps/ios/Clawket/NativeHistoryTransactions.swift:207-245 | completing an intent gives exactly the finished disk from whatever point a crash left it at, and notes the installed revision; every instant is one of its writes |
| HistoryStore.HistoryStore.Sweep | apps/ios/Clawket/NativeHistoryTransactions.swift:201-203 | stages and temporaries go, and nothing else does |
| HistoryStore.HistoryStore.RecoverHistory | apps/ios/Clawket/NativeHistoryTransactions.swift:194-205 | reaches exactly the recovered disk and notes what it installed, or poisons the process; every instant is one of its writes and weighs at most the peak of what is pending |
| HistoryRecovery.ArchivingResumes | apps/ios/Clawket/NativeHistoryTransactions.swift:218-236 | a crash while archiving leaves a disk whose completion ends where the uninterrupted one does |
| HistoryRecovery.InstalledResumes | apps/ios/Clawket/NativeHistoryTransactions.swift:216-245 | a crash after the replacement is current leaves a disk whose completion ends where the uninterrupted one does |
| HistoryRecovery.WaysJoin | apps/ios/Clawket/NativeHistoryTransactions.swift:207-245 | what recovery passes through from a disk it had passed through, it passes through from the first one |
| HistoryRecovery.RecoveryConverges | apps/ios/Clawket/NativeHistoryTransactions.swift:194-245 | from every disk recovery passes through, with any temporaries, recovery reaches the same disk if and only if the directory holds no more entries than can be listed; otherwise it refuses as full |
| HistoryRecovery.RepeatedCrashesConverge | apps/ios/Clawket/NativeHistoryTransactions.swift:194-245 | however many recoveries are interrupted, the next one reaches the first one's goal if and only if it can list the directory |
| HistoryRecovery.RecoveryNeedsRoom | apps/ios/Clawket/NativeHistoryFiles.swift:30-47 | recovery succeeds if and only if it has a goal and its entries and the temporaries together are at most 512 |
| HistoryRecovery.RefusalOverwritesNothing | apps/ios/Clawket/NativeHistoryTransactions.swift:210-231 | an intent that is refused has replaced no current, no rollback and no published file |
| HistoryRollover.RecoveryIsIdempotent | apps/ios/Clawket/NativeHistoryTransactions.swift:194-205 | recovering a recovered disk changes nothing; no intent and no stage is left |
| HistoryRollover.RetainIsIdempotent | apps/ios/Clawket/NativeHistoryTransactions.swift:134-139 | retaining what was retained changes nothing, which is what recovery compares |
| HistoryRollover.PreparedIsDiscarded | apps/ios/Clawket/NativeHistoryTransactions.swift:161-171 | before its intent is published a rollover leads back to the disk as it was |
| HistoryRollover.IntentCommitsIffFresh | apps/ios/Clawket/NativeHistoryTransactions.swift:151-164 | after its intent is published a rollover leads to the committed disk if and only if its archive ID is fresh, and otherwise nowhere |
| HistoryRollover.CollisionIsRefused | apps/ios/Clawket/NativeHistoryTransactions.swift:229-230 | an archive under a taken ID can never be completed |
| HistoryRollover.IntendedConverges | apps/ios/Clawket/NativeHistoryTransactions.swift:162-164 | every disk after the intent leads to the committed disk |
| HistoryRollover.OriginalSurvives | apps/ios/Clawket/NativeHistoryTransactions.swift:114-173 | on every disk of a rollover the original bytes are in current, rollback or the archive body |
| HistoryRollover.OriginalSurvivesRecoveries | apps/ios/Clawket/NativeHistoryTransactions.swift:114-245 | and on every disk of any number of interrupted recoveries after a crash of it |
| HistoryRollover.CatalogGrows | apps/ios/Clawket/NativeHistoryTransactions.swift:264-282 | a committed rollover adds one archive to the catalog and disturbs no other |
| HistoryRollover.CommittedMeaning | apps/ios/Clawket/NativeHistoryTransactions.swift:207-245 | a committed rollover adds its archive, keeps the original as rollback, installs the staged document, and touches no other conversation |
| HistoryRollover.CompletedIsCommitted | apps/ios/Clawket/NativeHistoryTransactions.swift:207-245 | the protocol run to its end produces the committed disk, and only under a fresh ID |
| HistoryRollover.PlannedIsRoomy | apps/ios/Clawket/NativeHistoryTransactions.swift:143-150 | a store that accepts a rollover holds at most 254 entries, so that its own files and 255 temporaries can be listed |
| HistoryStore.HistoryStore.PlanRollover | apps/ios/Clawket/NativeHistoryTransactions.swift:119-156 | decides exactly as specified between a replay, a commit and each refusal, without writing |
| HistoryStore.HistoryStore.StageReplacement | apps/ios/Clawket/NativeHistoryTransactions.swift:161-171 | stages the replacement; a failed stage is taken away; every instant is one of staging |
| HistoryStore.HistoryStore.CommitPlanned | apps/ios/Clawket/NativeHistoryTransactions.swift:159-172 | the write-ahead protocol: it returns the committed archive and document and notes the revision, leaves at most a stage, or poisons the process once an intent may exist |
| HistoryStore.HistoryStore.Rollover | apps/ios/Clawket/NativeHistoryTransactions.swift:114-173 | recovery, planning and the protocol; when it returns, the conversation has moved on to its next document, archived and with the original as rollback, or the same step is found done and nothing is written; every instant is one of its steps |
| HistoryAnswers.RolloverAnswers | apps/ios/Clawket/NativeHistoryTransactions.swift:125-173 | the document read afterwards has the requested session and epoch, the next revision, no cursor, the draft and header of the one before, and exactly the retained messages in their order; a new archive describes and holds the original; other conversations read as before; or the one archive of this very step is found, and nothing is written |
| HistoryAnswers.CommitIsWarranted | apps/ios/Clawket/NativeHistoryTransactions.swift:132-140 | what is committed is the successor of the document that was expected, by revision, epoch and hash |
| HistoryAnswers.RolloverIsAccepted | apps/ios/Clawket/NativeHistoryTransactions.swift:132-156 | a rollover is planned if and only if the document is the expected one, every retained ID names input of the user that may be kept, its step is not in the catalog, and there is room |
| HistoryAnswers.RefusalsNameTheirCause | apps/ios/Clawket/NativeHistoryTransactions.swift:132-155 | a refused rollover is refused as changed only when its document is not the expected one or its step is in the catalog, as invalid only for what is retained, resources, the clock or an invalid catalog; a document elsewhere is always refused as changed |
| HistoryAnswers.ReplayIsExact | apps/ios/Clawket/NativeHistoryTransactions.swift:125-131 | a request is found done if and only if the catalog has exactly one archive of its step and the document is what that step installed |
| HistoryAnswers.RolloverRepeats | apps/ios/Clawket/NativeHistoryTransactions.swift:125-131 | the request that was committed, made again on the committed disk, is found done with the same archive and document |
| HistoryAnswers.RecoveryInstallsOnlyTheNamed | apps/ios/Clawket/NativeHistoryTransactions.swift:207-236 | recovery changes what is read of a conversation only by installing the bytes the intent on disk names, over the very document it archives, as that document's successor |
| HistoryRuns.RolloverIsAtomic | apps/ios/Clawket/NativeHistoryTransactions.swift:114-245 | a crash at any instant of the call leaves a disk that leads where the one before led, or to exactly the committed one |
| HistoryRuns.RolloverIsBounded | apps/ios/Clawket/NativeHistoryTransactions.swift:143-173 | from when its recovery is done, every instant of a rollover keeps the original and weighs at most 64 MiB; before, at most the peak of what was pending |
| HistorySteps.RollingRecovers | apps/ios/Clawket/NativeHistoryTransactions.swift:159-245 | every instant of staging, publishing the intent and completing recovers, under a fresh ID, to the disk before or the committed one, and always has room to |
| HistorySteps.RollingKeepsOriginal | apps/ios/Clawket/NativeHistoryTransactions.swift:159-245 | and has the original in one of its three homes |
| HistorySteps.RollingWeighs | apps/ios/Clawket/NativeHistoryTransactions.swift:146-150 | and weighs at most 64 MiB |
| HistorySteps.RecoveryPeaks | apps/ios/Clawket/NativeHistoryTransactions.swift:207-245 | the most that carrying out a pending intent weighs, with any temporaries left before: nothing weighs more, and it is reached |
| HistorySteps.RecoveryWeighs | apps/ios/Clawket/NativeHistoryTransactions.swift:146-150 | the recovery after a crash of a rollover stays within 64 MiB if and only if a sum of sizes known when it is planned does |
| HistorySteps.RecoveryCanExceedTheLimit | apps/ios/Clawket/NativeHistoryTransactions.swift:146-150 | a rollover accepted to the byte, of an original that outweighs its replacement by more than the reserve, can be crashed so that its recovery exceeds 64 MiB |
| HistoryRuns.EveryStepKeeps | apps/ios/Clawket/NativeHistoryTransactions.swift:157-245 | every call, every crash inside or between calls and every restart keeps: the disk leads somewhere unless a rollover drew a taken archive ID, and what a live process has read it knows the revision of |
| HistoryRuns.RunsRecover | apps/ios/Clawket/NativeHistoryTransactions.swift:194-245 | over any run of calls on any conversations, with any archive IDs and with crashes inside and between calls: a restart has a goal if and only if no rollover is stranded under a taken ID, and then recovers exactly when the directory can be listed |
| HistoryRuns.FreshRunsRecover | apps/ios/Clawket/NativeHistoryTransactions.swift:151-164 | no rollover is stranded while every archive ID drawn is fresh |
| HistoryRuns.StrandedForever | apps/ios/Clawket/NativeHistoryTransactions.swift:194-231 | once a rollover is stranded under a taken ID, no later call, crash or restart ends it |
| HistoryRuns.RunsMayFill | apps/ios/Clawket/NativeHistoryTransactions.swift:194-231 | a run of one rollover and `n` recoveries, all cut off, after which a restart commits it or finds the directory full: exactly by whether its entries and the `n` temporaries are at most 512 |
| HistoryRuns.PendingIsSound | apps/ios/Clawket/NativeHistoryTransactions.swift:207-218 | in every reachable state with an intent on disk the intent is valid, its stage matches, and current is the original or the replacement |
| HistoryRuns.RevisionsNeverDecrease | apps/ios/Clawket/NativeConversationStore.swift:245-271 | over any run in one process, whatever writes fail, a conversation once read is never older on disk, up to and including a crash |
| HistoryRuns.PerformanceKnows | apps/ios/Clawket/NativeConversationStore.swift:203-271 | no instant of a write, read, binding, establishing or rollover reads as an older revision, and each that succeeds leaves the process knowing the revision |
| HistoryRuns.ArchivesAreForever | apps/ios/Clawket/NativeHistoryTransactions.swift:229-231 | over any run, with any archive IDs, no archive body and no manifest is lost or changed |
| HistoryRuns.WithoutPoisonRevisionsFall | apps/ios/Clawket/NativeHistoryTransactions.swift:65-74 | the step the poison forbids: after a binding that failed once its current was written, a write of the revision last noted would lower the stored one |
| HistoryRuns.UnfencedWriteIsFatal | apps/ios/Clawket/NativeHistoryTransactions.swift:193-198 | the step that recovering first forbids: any other document written while an intent is pending makes every later recovery refuse |
| HistorySteps.PublishingWeighs | apps/ios/Clawket/NativeHistoryFiles.swift:70-103 | publishing costs at most twice the file at its worst instant |
| ConversationWrites.WriteIsAtomic | packages/apple/Sources/ClawketPersistence/DocumentStore.swift:22-57 | every instant of a write reads as the old document or the new one |
| HistoryStore.HistoryStore.WriteLocked | apps/ios/Clawket/NativeConversationStore.swift:245-271 | an older revision is dropped, another epoch or session is refused, the newest revision is noted before anything is written, every instant is a write's and weighs at most 64 MiB; a document is refused only for its session, its size or the room it needs, unless the device fails |
| HistoryStore.HistoryStore.Write | apps/ios/Clawket/NativeConversationStore.swift:237-243 | a write recovers first; then the document is stored and its revision noted, unless the process has noted a newer one, and then the recovered disk is left as it is |
| HistoryStore.HistoryStore.Load | apps/ios/Clawket/NativeConversationStore.swift:203-235 | returns the stored document with every sending message uncertain and every queued one held; when that changed a delivery it is stored before it is returned, unless the process has noted a revision beyond it |
| HistoryAnswers.LoadAnswers | apps/ios/Clawket/NativeConversationStore.swift:210-235 | a load returns the stored document with a send under way uncertain, a queued one held and nothing streaming, one revision on exactly when a delivery changed, and stores it exactly then, unless the process knows a newer revision; other conversations are untouched |
| HistoryAnswers.LoadingSettles | apps/ios/Clawket/NativeConversationStore.swift:216-233 | loading what a load returned changes nothing more |
| HistoryAnswers.WriteAnswers | apps/ios/Clawket/NativeConversationStore.swift:245-271 | a write that is not out of date is what is read afterwards; one that is changes nothing; other conversations are untouched |
| HistoryAnswers.WritesKeepSessions | apps/ios/Clawket/NativeConversationStore.swift:248-252 | at no instant of a write is a stored document of another epoch or session than before |
| HistoryAnswers.LoadsKeepSessions | apps/ios/Clawket/NativeConversationStore.swift:230-233 | nor at any instant of a load |
| HistoryAnswers.RollbackStandsIn | apps/ios/Clawket/NativeConversationStore.swift:248-248 | when the current document is lost or unreadable after a write, the one before it is read |
| HistoryAnswers.DamageIsNotOverwritten | apps/ios/Clawket/NativeHistoryTransactions.swift:215-217 | a transaction takes the rollback for a current that is missing, and refuses one it cannot read |
| ConversationWrites.BindingRetries | apps/ios/Clawket/NativeHistoryTransactions.swift:28-63 | a binding retried after a crash between its writes gives the same disk and document if and only if there is room for the original a third time; otherwise it is refused as full |
| ConversationWrites.BindingRepeats | apps/ios/Clawket/NativeHistoryTransactions.swift:32-59 | a binding repeated once it has happened gives the same disk, the same document and one revision step |
| ConversationWrites.BindingMeaning | apps/ios/Clawket/NativeHistoryTransactions.swift:41-73 | a binding changes the session and the revision and carries draft, messages, cursor and header over, keeps the original as rollback, and touches no other conversation |
| HistoryStore.HistoryStore.BindRecovered | apps/ios/Clawket/NativeHistoryTransactions.swift:23-74 | returns exactly the specified disk and document and notes the revision; every instant weighs at most 64 MiB and is one of three disks; failing after a write began poisons the process |
| HistoryStore.HistoryStore.Bind | apps/ios/Clawket/NativeHistoryTransactions.swift:19-75 | recovery, then the binding of the recovered disk |
| HistoryAnswers.BindingIsAccepted | apps/ios/Clawket/NativeHistoryTransactions.swift:32-63 | a document is bound if and only if it has the expected revision and epoch, no session, only input of the user that is held, uncertain or failed, and there is room |
| HistoryAnswers.BindingRetryIsExact | apps/ios/Clawket/NativeHistoryTransactions.swift:34-59 | a retry is accepted if and only if the rollback is the expected document and what stands is, to the byte, what the binding would have written |
| ConversationWrites.FoundingRetries | apps/ios/Clawket/NativeHistoryTransactions.swift:85-109 | establishing an epoch again from between its writes gives the same disk and document if and only if there is room for the saved copy |
| ConversationWrites.FoundingRepeats | apps/ios/Clawket/NativeHistoryTransactions.swift:85-88 | an establishing repeated once it has happened changes nothing |
| ConversationWrites.FoundingMeaning | apps/ios/Clawket/NativeHistoryTransactions.swift:85-109 | an epoch is established only for a document without messages, in one revision step, with draft, cursor and header carried over, touching nothing else |
| HistoryStore.HistoryStore.EstablishRecovered | apps/ios/Clawket/NativeHistoryTransactions.swift:82-110 | returns exactly the specified disk and document and notes the revision; every instant weighs at most 64 MiB; failing after a write began poisons the process |
| HistoryStore.HistoryStore.Establish | apps/ios/Clawket/NativeHistoryTransactions.swift:78-111 | recovery, then the establishing on the recovered disk |
| HistoryAnswers.FoundingIsAccepted | apps/ios/Clawket/NativeHistoryTransactions.swift:87-98 | an epoch is established if and only if it has been already, or the document has the expected revision, no messages, no session and no other epoch, and there is room |
| HistoryAnswers.FoundingBegins | apps/ios/Clawket/NativeHistoryTransactions.swift:86-92 | a conversation of which nothing is stored begins blank, in its first revision |
| HistoryIdentity.FindMatches | apps/ios/Clawket/NativeHistoryIdentity.swift:73-116 | the dictionaries compute exactly the accepted matches |
| HistoryIdentity.UniqueEvidence | apps/ios/Clawket/NativeHistoryIdentity.swift:171-176 | a key is evidence for a stored row if and only if exactly these two rows hold it |
| HistoryIdentity.MatchingIsInjective | apps/ios/Clawket/NativeHistoryIdentity.swift:113-115 | no two incoming rows take one stored row |
| HistoryIdentity.MatchingIsSound | apps/ios/Clawket/NativeHistoryIdentity.swift:86-144 | every match shares a key unique on both sides, contradicts nothing known of either row, and takes a row of the user's own only by its own send key or provided ID |
| HistoryIdentity.SourceRowsMatchExactly | apps/ios/Clawket/NativeHistoryIdentity.swift:80-115 | for rows of other roles a match exists if and only if the source key is shared and unique, the rows agree, and the stored one is not the user's own |
| HistoryEvidence.MatchIsDecided | apps/ios/Clawket/NativeHistoryIdentity.swift:73-176 | an incoming row and a stored row are matched if and only if one of them points to the other by evidence that no third row shares, nothing known of them differs, and no other evidence points elsewhere; for rows of every role |
| HistoryEvidence.CompatibleIs | apps/ios/Clawket/NativeHistoryIdentity.swift:118-144 | two rows agree if and only if neither denies the other in a role, an epoch, a run, a turn, an input, a place, a producer ID, a send key or an author, and a participant whose sender is unknown is allowed |
| HistoryEvidence.KindIsDecided | apps/ios/Clawket/NativeHistoryIdentity.swift:86-111 | whether a match is an echo of one's own message, one's own message confirmed by its producer, a producer ID or a place |
| HistoryIdentity.MatchingIgnoresOrder | apps/ios/Clawket/NativeHistoryIdentity.swift:73-116 | rearranging either side only renames positions |
| HistoryIdentity.PositionKeysAreExact | apps/ios/Clawket/NativeHistoryIdentity.swift:150-155 | a position key names one source, one sequence number and one epoch |
| HistoryIdentity.BigEndianIsInjective | apps/ios/Clawket/NativeHistoryIdentity.swift:153-154 | different sequence numbers have different bytes |
| HistoryWeave.WeaveSorted | apps/ios/Clawket/NativeHistoryReconciliation.swift:60-83 | a weave holds every row of the spine and every loose row at its place and nothing else |
| HistoryWeave.OrderIsKept | apps/ios/Clawket/NativeHistoryReconciliation.swift:66-82 | the sequence woven in appears in its own order |
| HistoryWeave.SpineIsKept | apps/ios/Clawket/NativeHistoryReconciliation.swift:106-110 | the spine appears in its own order |
| HistoryWeave.WeaveIsDistinct | apps/ios/Clawket/NativeHistoryReconciliation.swift:66-83 | no ID is shown twice |
| HistoryWeave.NextAnchors | apps/ios/Clawket/NativeHistoryReconciliation.swift:88-92 | the backward scan finds the next shared row after each position |
| HistoryWeave.Shelve | apps/ios/Clawket/NativeHistoryReconciliation.swift:66-76 | every loose row is shelved after the shared row before it, else before the one after it, else apart |
| HistoryWeave.WeaveInto | apps/ios/Clawket/NativeHistoryReconciliation.swift:77-83 | laying out the shelves gives exactly the weave |
| HistoryReconciliation.PlanRows | apps/ios/Clawket/NativeHistoryReconciliation.swift:26-84 | the loops compute exactly the plan, refusals included |
| HistoryReconciliation.Accept | apps/ios/Clawket/NativeHistoryReconciliation.swift:36-51 | each row becomes what the plan says, and a drawn ID that is empty, too long or taken refuses the plan |
| HistoryReconciliation.WeaveEarlier | apps/ios/Clawket/NativeHistoryReconciliation.swift:86-112 | an earlier page is woven around the stored rows |
| HistoryReconciliation.HeadIsDistinct | apps/ios/Clawket/NativeHistoryReconciliation.swift:36-83 | a head plan's IDs are pairwise distinct |
| HistoryReconciliation.HeadShowsTheRead | apps/ios/Clawket/NativeHistoryReconciliation.swift:37-51 | each incoming row is shown once, in source order |
| HistoryReconciliation.HeadContents | apps/ios/Clawket/NativeHistoryReconciliation.swift:66-83 | a head plan shows the rows of the read, the surviving stored rows, and nothing else |
| HistoryReconciliation.HeadShowsSurvivors | apps/ios/Clawket/NativeHistoryReconciliation.swift:68-72 | a stored row is shown if and only if it is matched, owned, streaming, changed after the read began, or in the retained prefix |
| HistoryReconciliation.HeadKeepsStoredOrder | apps/ios/Clawket/NativeHistoryReconciliation.swift:59-83 | when matches ascend, all shown stored rows keep their stored order |
| HistoryReconciliation.HeadRetainsPrefix | apps/ios/Clawket/NativeHistoryReconciliation.swift:57-71 | with the prefix requested, every stored row before the first match is shown |
| HistoryPlaces.SurvivorStands | apps/ios/Clawket/NativeHistoryReconciliation.swift:60-83 | a stored row that a head keeps without mentioning it stands right after what its nearest mentioned neighbour before it became; without one, right before the one after it; without any, after the whole read |
| HistoryPlaces.SurvivorsKeepOrder | apps/ios/Clawket/NativeHistoryReconciliation.swift:66-83 | such rows with no mentioned row between them keep their order |
| HistoryPlaces.UnmentionedIsShownIff | apps/ios/Clawket/NativeHistoryReconciliation.swift:57-72 | such a row is shown if and only if it is the user's own, streams, has changed since the read began, or is older than a partial head whose known rows ascend |
| HistoryReconciliation.EarlierContents | apps/ios/Clawket/NativeHistoryReconciliation.swift:86-112 | an accepted earlier page shows every stored row once and every unmatched incoming row once, nothing else, and only for ascending matches |
| HistoryReconciliation.EarlierKeepsStoredOrder | apps/ios/Clawket/NativeHistoryReconciliation.swift:106-110 | the stored order is a subsequence of the result |
| HistoryReconciliation.EarlierKeepsReadOrder | apps/ios/Clawket/NativeHistoryReconciliation.swift:88-110 | the incoming order, reading matched rows as their stored rows, is a subsequence of the result |
| HistoryPlaces.AdditionStands | apps/ios/Clawket/NativeHistoryReconciliation.swift:88-111 | a new row of an earlier page stands right after the stored row its nearest known neighbour before it is, else right before the one after it, else before all |
| HistoryPlaces.AdditionsKeepOrder | apps/ios/Clawket/NativeHistoryReconciliation.swift:88-111 | new rows with no known row between them keep the read's order |
| HistoryReconciliation.PlanningIsAFixedPoint | apps/ios/Clawket/NativeHistoryReconciliation.swift:36-83 | replanning a head over its own result draws nothing, and gives the same ID sequence if and only if no row stood only by the prefix or the first row was matched |
| HistoryReplanning.OwnRowIsMatched | apps/ios/Clawket/NativeHistoryIdentity.swift:73-116 | a row read again is matched to what was made of it if and only if none of its keys is held by another row, nothing contradicts, a key may speak for it, and no other row claims it |
| HistoryReplanning.UpdatedCarries | apps/ios/Clawket/NativeHistoryApplication.swift:70-114 | what an application makes of a row contradicts it in nothing when the row is read again, and carries its keys unless it was joined to an ambiguous row without a producer ID, whatever has become ambiguous since |
| HistoryReplanning.RematchedIffRecognized | apps/ios/Clawket/NativeHistoryReconciliation.swift:36-83 | the rows of a head read again are matched to the places they had if and only if each is recognized by its evidence (or, kept without its keys, matched all the same) |
| HistoryReplanning.ReadingAgainIsAFixedPoint | apps/ios/Clawket/NativeHistoryReconciliation.swift:36-83 | a head read again over its own result, matched by evidence both times, is accepted and gives the same ID sequence if and only if no row stood only by the prefix or the first row was matched |
| HistoryReplanning.TheOlderPrefixIsDropped | apps/ios/Clawket/NativeHistoryReconciliation.swift:36-83 | an input whose second plan drops an older row that the first one retained |
| HistoryReapplying.SuspicionSettles | apps/ios/Clawket/NativeHistoryApplication.swift:27-54 | a read applied to its own result, head or earlier page, finds nothing suspicious that is not blocked already: the memory is the same |
| HistoryReapplying.NothingContradicts | apps/ios/Clawket/NativeHistoryApplication.swift:38-49 | no report contradicts a row of the result that speaks for its producer ID |
| HistoryReapplying.LeaverIsUnreported | apps/ios/Clawket/NativeHistoryApplication.swift:129-134 | a finished row leaves a head, and is remembered, only when no assistant report speaks for its producer ID |
| HistoryReapplying.UpdatedAgain | apps/ios/Clawket/NativeHistoryApplication.swift:76-112 | what a report makes of the row it has made is that row again, text, liveness and files included, unless the plan keeps the row's content anyway |
| HistoryReapplying.ReapplyingIsAFixedPoint | apps/ios/Clawket/NativeHistoryApplication.swift:25-137 | applying a head again to its own result, matched anew and with the memories carried over, gives the same rows if and only if no row stood only by the prefix or the first report was matched; then both memories are the same and no file is let go |
| HistoryReconciliation.PlannedEntries | apps/ios/Clawket/NativeHistoryReconciliation.swift:26-112 | every entry of any accepted plan is a stored row kept, the stored row its match names, or a new ID |
| HistoryReconciliation.FlaggedStays | apps/ios/Clawket/NativeHistoryReconciliation.swift:70-72 | an owned, streaming or changed row is in every accepted plan |
| HistoryMemories.MemoryIsExact | apps/ios/Clawket/NativeConversationStore.swift:11-35 | the ambiguity memory only grows, holds at most 128 sources, evicts none, and overflows if and only if what it must hold does not fit or is no valid source |
| HistoryMemories.BlockingIgnoresOrder | apps/ios/Clawket/NativeHistoryApplication.swift:33-37 | which sources are blocked does not depend on the order they are found in |
| HistoryMemories.RememberRetired | apps/ios/Clawket/NativeConversationStore.swift:39-69 | all new sources are remembered, or the call fails and none is; it fails if and only if one is invalid or 4096 entries or 256 KiB would be exceeded |
| HistoryMemories.RetiringIsValid | apps/ios/Clawket/NativeConversationStore.swift:39-69 | the retired memory keeps its limits, loses nothing and gains exactly the new sources |
| HistoryPrepare.Repeated | apps/ios/Clawket/NativeHistoryApplication.swift:33-37 | grouping finds exactly the values that occur more than once |
| HistoryPrepare.CollectContradictions | apps/ios/Clawket/NativeHistoryApplication.swift:38-49 | stopping at overflow and skipping known sources changes nothing of what is remembered |
| HistoryPrepare.Suspect | apps/ios/Clawket/NativeHistoryApplication.swift:23-50 | the memory is exactly what the read, the stored rows and their contradictions require |
| HistoryPrepare.Settle | apps/ios/Clawket/NativeHistoryApplication.swift:115-128 | rows that share a source, then all rows of blocked sources, lose its authority |
| HistoryPrepare.Prepare | apps/ios/Clawket/NativeHistoryApplication.swift:18-138 | the loops compute the application; each accepted report has a row that shows it, every other row is a stored one as it was, what must stay is there, exactly the reports that no standing row answers are taken in, and exactly the resources no row needs any more are let go |
| HistoryRows.ProjectionIsTold | apps/ios/Clawket/NativeHistoryApplication.swift:70-138 | the same of every application, in terms of the reports, the stored rows and the accepted map alone |
| HistoryRows.UpdatedEntryShows | apps/ios/Clawket/NativeHistoryApplication.swift:73-112 | a row made from a report shows its text, unless it continues a row still being written by a run that agrees and is not known to be over: exactly then the stored text; and the report's facts, or what it leaves unsaid but was known; ownership, delivery, liveness, authority and files as both say |
| HistoryRows.KeptEntryShows | apps/ios/Clawket/NativeHistoryApplication.swift:55-72 | a kept row is the stored row, but for authority its producer ID has lost |
| HistoryRows.MatchSays | apps/ios/Clawket/NativeHistoryIdentity.swift:73-144 | a report is joined only to a row of its epoch and role that differs in no run, turn, input or place, by an undoubted producer ID, by its place, or by the send key of the user's own message; one's own message never by its place |
| HistoryRows.EvidenceOffered | apps/ios/Clawket/NativeHistoryApplication.swift:60-67 | what a report and a stored row bring as evidence, and what doubt takes from it |
| HistoryRows.OtherEpochsAreForgotten | apps/ios/Clawket/NativeHistoryApplication.swift:23-26 | what was remembered in another epoch makes no difference to an application |
| HistoryMerging.EntryContinues | apps/ios/Clawket/NativeHistoryApplication.swift:70-114 | a row made from a stored row keeps its ID, its ownership, an owned row's files and its finished state; a new row is never owned |
| HistoryMerging.OwnershipIsInvariant | apps/ios/Clawket/NativeHistoryApplication.swift:55-137 | the set of IDs of the user's own rows is the same after every successful application |
| HistoryMerging.OwnershipSurvivesReads | apps/ios/Clawket/NativeHistoryApplication.swift:55-137 | and over any run of head and earlier reads |
| HistoryMerging.ResultIdsAreDistinct | apps/ios/Clawket/NativeHistoryApplication.swift:70-114 | the resulting rows have distinct IDs |
| HistoryMerging.OwnedFilesAreKept | apps/ios/Clawket/NativeHistoryApplication.swift:135-137 | no resource held by a row of the user's own is retired |
| HistoryMerging.BlockingIsExact | apps/ios/Clawket/NativeHistoryApplication.swift:23-59 | a source is blocked afterwards if and only if it was, there is evidence against it, or the memory cannot hold what it must |
| HistoryMerging.BlockedHasNoAuthority | apps/ios/Clawket/NativeHistoryApplication.swift:123-128 | no resulting row of the epoch is authoritative for a blocked source |
| HistoryMerging.AuthorityIsUnique | apps/ios/Clawket/NativeHistoryApplication.swift:115-128 | no two resulting rows of the epoch are authoritative for one source |
| HistoryMerging.SuspicionIsForever | apps/ios/Clawket/NativeHistoryApplication.swift:23-59 | over any run of reads and live changes in one epoch a blocked source stays blocked and unauthoritative, both memories keep their limits, and a retired source stays retired |
| HistoryMerging.DroppedSourcesAreRetired | apps/ios/Clawket/NativeHistoryApplication.swift:129-137 | of a finished, non-local, provided assistant row that a head removes, the source is remembered, within the limits, if and only if it was already or neither memory, read nor stored rows block it |
| HistoryMerging.SuspicionIsExact | apps/ios/Clawket/NativeHistoryApplication.swift:23-59 | what blocks a source before the rows are planned: the memory, an ambiguous, repeated or contradicting row in the read or the store, or want of room |
| HistoryMerging.RepetitionForgets | apps/ios/Clawket/NativeHistoryApplication.swift:33-59 | a complete head that reports one source twice drops the finished row of that source, blocks it, and remembers it nowhere |
| HistoryMerging.ForgottenSourceRunsAgain | apps/ios/Clawket/NativeHistoryApplication.swift:84-94 | a new row of the active run is shown as running if and only if its source is not retired, blocked or not |
| HistoryMerging.RetiredStaysFinished | apps/ios/Clawket/NativeHistoryApplication.swift:84-94 | a row made from a retired source is finished |
| HistoryMerging.FinishedStaysFinished | apps/ios/Clawket/NativeHistoryApplication.swift:84-94 | a finished row stays finished while it is shown |
| OutboxSafety.EveryStepKeeps | apps/ios/Clawket/NativeAppModel.swift:1091-1236 | the invariant of documents, revisions, tasks and authority survives every event from every state, the end of a setting command included |
| OutboxSafety.RunsAreSafe | apps/ios/Clawket/NativeAppModel.swift:1091-1236 | it holds after every run from a process start |
| OutboxSafety.RunsLookSent | apps/ios/Clawket/NativeAppModel.swift:1107-1114 | in every state of a run each message that a task holds or that may be at the backend is shown so, if and only if no setting command of the run has shown one as held |
| OutboxSafety.WithheldOverRun | apps/ios/Clawket/NativeAppModel.swift:1107-1114 | the messages counted as withheld are exactly those a setting command of the run, its write failed or its scope lost, has shown as held while a task held them or after a request for them |
| OutboxCommands.CommandsMaySendTwice | apps/ios/Clawket/NativeAppModel.swift:1091-1116 | a run in which a command whose write fails is shown as held while a task sends it, reads as held after a crash, and enters the wire a second time with no proof of non-dispatch |
| OutboxSafety.OneTaskAtATime | apps/ios/Clawket/NativeAppModel.swift:1167-1173 | a conversation never has two send tasks |
| OutboxSafety.ReserveKeeps | apps/ios/Clawket/NativeAppModel.swift:1182-1186 | reserving shows the message as sending in memory and in the waiting write at once |
| OutboxSafety.ToldTask | apps/ios/Clawket/NativeConversationStore.swift:253-270 | a task is told that its message is stored only when the stored document shows it as sending or later |
| OutboxSafety.OnlyStoredMessagesAreSent | apps/ios/Clawket/NativeAppModel.swift:1186-1202 | when a request enters the wire for a message no command has withheld, the stored document already shows it as sending or later, no earlier request for it may have been dispatched, and its authority is used up |
| OutboxSafety.RestartRemembersSends | apps/ios/Clawket/NativeConversationStore.swift:210-235 | a crash at any moment, then a restart, reads a message that may have been dispatched as uncertain, sent or delivered, unless a command has withheld it |
| OutboxSafety.RestartKeepsSends | apps/ios/Clawket/NativeConversationStore.swift:210-235 | from when its task knows it stored until the task ends, in one epoch, a message is still there after any crash and restart, and shown as uncertain, sent or delivered, unless a command has withheld it |
| OutboxSafety.ExposureIsSticky | apps/ios/Clawket/NativeAppModel.swift:1212-1221 | only an answer that proves non-dispatch clears a message |
| OutboxSafety.QueueingNeedsTheUser | apps/ios/Clawket/NativeAppModel.swift:1522-1534 | a message becomes queued only when it is written or a command is queued, or when the user sends a held one |
| OutboxUncertainty.UncertainIsNotQueuedAgain | apps/ios/Clawket/NativeAppModel.swift:1513-1541 | over any run, between an uncertain and a queued state of a message there is one in which it is held and the user asks for it |
| OutboxUncertainty.UncertainIsHeldIff | apps/ios/Clawket/NativeAppModel.swift:1107-1221 | exactly which events show an uncertain message as held: its own task giving it back before the wire or with proof of non-dispatch, the end of its setting command with a failed write or lost scope, or the adoption of a session that committed it unsent |
| OutboxUncertainty.UncertainBecomesHeld | apps/ios/Clawket/NativeAppModel.swift:1187-1193 | a run in which a message never requested is settled as uncertain by a rollover and then given back as held by its task |
| OutboxSafety.OnlyProofUndoesASend | apps/ios/Clawket/NativeAppModel.swift:1107-1221 | a possibly dispatched message stops looking so only by proof of non-dispatch, or when a setting command shows it as held |
| OutboxSafety.NothingIsGrantedElsewhere | apps/ios/Clawket/NativeAppModel.swift:1164-1236 | no event but the user's creates authority to send |
| OutboxSafety.NothingIsSentTwice | apps/ios/Clawket/NativeAppModel.swift:1164-1236 | between two requests for one message, in any run with any crashes, the first was proved undispatched and the user asked again, unless a command had withheld the message |
| OutboxSafety.RequestsAreAuthorized | apps/ios/Clawket/NativeAppModel.swift:1118-1236 | requests for a message never outnumber the user's authorizations of it |
| OutboxMeaning.DrainTells | apps/ios/Clawket/NativeAppModel.swift:1164-1173 | a task starts for a message before which none waits, if and only if input is permitted, the gate holds, nothing runs, no task exists and that message has a key |
| OutboxMeaning.TasksStartInOrder | apps/ios/Clawket/NativeAppModel.swift:1164-1173 | over any run, every task was started when its message was the first in the document that waited |
| OutboxMeaning.RequestsFollowTheOrder | apps/ios/Clawket/NativeAppModel.swift:1164-1202 | and so was every request that entered the wire |
| OutboxMeaning.OnlyDrainsStart | apps/ios/Clawket/NativeAppModel.swift:1164-1173 | no event but a drain starts a task |
| OutboxMeaning.ComposeTells | apps/ios/Clawket/NativeAppModel.swift:1091-1157 | a message is taken in, and a command queued, if and only if input is permitted and fewer than 32 are pending; it then stands last, queued in the present epoch under its own key |
| OutboxMeaning.PrepareTells | apps/ios/Clawket/NativeAppModel.swift:1176-1186 | a prepared prompt reserves its message, with its document waiting for the store, if and only if the conversation takes input within scope and the message is still as it was taken; otherwise the task ends, and only a message that still waits shows the failure |
| OutboxMeaning.ConfirmTells | apps/ios/Clawket/NativeAppModel.swift:1187-1193 | the task goes on if and only if its document was stored, input is permitted within scope and nothing runs; otherwise its message is held, or has failed when it could not be stored within scope |
| OutboxMeaning.EnterTells | apps/ios/Clawket/NativeAppModel.swift:1194-1202 | a request enters the wire if and only if the model is verified, the media suit it and input is permitted within scope; otherwise the task ends, its message held, failed or as its error says |
| OutboxMeaning.AnswerTells | apps/ios/Clawket/NativeAppModel.swift:1203-1228 | which delivery each answer of the runtime shows, whether its run is followed, and that the task is over |
| OutboxMeaning.ActionTells | apps/ios/Clawket/NativeAppModel.swift:1513-1544 | what editing, saving an edit, removing and sending a held message change, exactly when they change it |
| OutboxMeaning.FinishTells | apps/ios/Clawket/NativeAppModel.swift:1108-1115 | the end of a command that does not stand shows its message as held |
| OutboxMeaning.DisconnectTells | apps/ios/Clawket/NativeAppModel.swift:606-624 | losing the connection holds what is queued and changes nothing else of any message |
| OutboxMeaning.StoreTells | apps/ios/Clawket/NativeConversationStore.swift:245-271 | the store takes waiting documents in their order, and what it then holds |
| OutboxMeaning.WaiterIsTold | apps/ios/Clawket/NativeAppModel.swift:1186-1186 | a task is told of its own write, and that it is stored exactly when it, or a newer one, is |
| OutboxMeaning.TransactTells | apps/ios/Clawket/NativeAppModel.swift:1686-1708 | a binding or a rollover starts only from the document it was begun with, happens in whole or not at all, and keeps exactly the user's input that may outlive it, in its order; when it cannot be known, or the document is none that may be bound, the conversation stays fenced |
| OutboxMeaning.OperationTells | apps/ios/Clawket/NativeAppModel.swift:1662-1688 | an operation begins with the document shown, has it stored first if what is stored is older, and is fenced off when the store has another epoch |
| OutboxMeaning.AdoptTells | apps/ios/Clawket/NativeAppModel.swift:1709-1744 | what was committed is shown at rest, and a run ends with its epoch |
| OutboxMeaning.LoadTells | apps/ios/Clawket/NativeConversationStore.swift:210-235 | a restart shows the stored document at rest, one revision on exactly when that changed it, once it is stored |
| OutboxModel.AppModel.Write | apps/ios/Clawket/NativeAppModel.swift:1118-1157 | composing queues one message under a new ID, grants exactly one authorization, never exceeds 32 pending, and keeps the invariant |
| OutboxModel.AppModel.Edit | apps/ios/Clawket/NativeConversationStore.swift:136-143 | a message taken for editing is not queued and, unless withheld by a command, with no task and not at the backend; nothing else becomes queued; the invariant holds |
| OutboxModel.AppModel.Retry | apps/ios/Clawket/NativeAppModel.swift:1522-1534 | an explicit send queues only a message that, unless withheld by a command, no task holds and no request may have taken to the backend, and grants exactly one authorization; the invariant holds |
| OutboxModel.AppModel.Discard | apps/ios/Clawket/NativeConversationStore.swift:156-159 | a removed message is gone and, unless withheld by a command, with no task and not at the backend; every other message stays; the invariant holds |
| OutboxModel.AppModel.QueueCommand | apps/ios/Clawket/NativeAppModel.swift:1105-1108 | a setting command queues one message within the limit, and the last write to wait is its own document's and its own; the invariant holds |
| OutboxModel.AppModel.CommandReturned | apps/ios/Clawket/NativeAppModel.swift:1108-1115 | the end of a command queues nothing and un-sends no message but its own, and that it was withheld is recorded exactly when its send stops looking so; the invariant holds |
| OutboxModel.AppModel.SetDelivery | apps/ios/Clawket/NativeAppModel.swift:1231-1236 | a result is recorded unless the message is delivered |
| OutboxModel.AppModel.HoldAll | apps/ios/Clawket/NativeAppModel.swift:614-620 | every queued message is held |
| OutboxModel.AppModel.DrainQueue | apps/ios/Clawket/NativeAppModel.swift:1164-1173 | a task is started only for the first owned message queued in the present epoch, and is started when input is permitted, the gate holds, nothing runs and that message has a key; at most one task exists; the invariant holds |
| OutboxModel.AppModel.PromptReady | apps/ios/Clawket/NativeAppModel.swift:1176-1186 | a task goes on only when its message is shown as sending in memory and in every document that waits behind its own write, and is not queued any more; nothing is sent; the invariant holds |
| OutboxModel.AppModel.WriteReturned | apps/ios/Clawket/NativeAppModel.swift:1187-1193 | a task goes on only when the stored document shows its message as sending or later, unless a command withheld it; nothing is sent; the invariant holds |
| OutboxModel.AppModel.ModelVerified | apps/ios/Clawket/NativeAppModel.swift:1194-1202 | a request is counted when it enters the wire and, unless a command withheld its message, no earlier one may have taken it to the backend, the stored document shows it, and its authority is used up; the invariant holds |
| OutboxModel.AppModel.RuntimeAnswered | apps/ios/Clawket/NativeAppModel.swift:1203-1228 | an answer ends the task, and only a proof that nothing was dispatched may leave its message looking unsent; no authority is created; the invariant holds |
| OutboxModel.AppModel.ConnectionLost | apps/ios/Clawket/NativeAppModel.swift:606-624 | losing the connection leaves nothing queued, un-sends nothing, and takes its scope from every task that had one; the invariant holds |
| OutboxModel.AppModel.Autosave | apps/ios/Clawket/NativeAppModel.swift:1583-1601 | whatever waits for the store shows every message that may be at the backend and was not withheld, and is no newer than the document; the invariant holds |
| OutboxModel.AppModel.WriteLocked | apps/ios/Clawket/NativeConversationStore.swift:245-271 | the stored document never goes back to an older revision or to another epoch, and a newest revision reported as written is stored |
| OutboxModel.AppModel.TakeNext | apps/ios/Clawket/NativeConversationStore.swift:318-326 | the first waiting document is written; a task told of success has its message in the stored document, unless withheld; the invariant holds |
| OutboxModel.AppModel.ReadLocked | apps/ios/Clawket/NativeConversationStore.swift:210-235 | a restart settles and stores before it shows: nothing is queued and every message that may be at the backend and was not withheld looks so; the invariant holds |
| UpdateTransaction.SortedIsSorted | apps/bridge-cli/src/update-transaction.ts:18-22 | ordering by rank keeps every target once, in ascending rank |
| UpdateActivation.StopAll | apps/bridge-cli/src/update-transaction.ts:33-37 | the stop loop is the stop pass |
| UpdateActivation.StartAll | apps/bridge-cli/src/update-transaction.ts:38-41 | the start loop is the start pass: each start is verified before the next |
| UpdateActivation.PrepareAll | apps/bridge-cli/src/update-transaction.ts:42-47 | the registration loop is the registration pass |
| UpdateActivation.UndoAll | apps/bridge-cli/src/update-transaction.ts:50-71 | the three rollback loops are the rollback |
| UpdateActivation.ReviveOne | apps/bridge-cli/src/update-transaction.ts:61-70 | putting one target back, with every way its confirmation may fail |
| UpdateActivation.ActivateUpdate | apps/bridge-cli/src/update-transaction.ts:25-75 | the transaction follows the script, answered by the world, and every row it reports is true of its calls |
| UpdateScript.UpdateFollowsTheScript | apps/bridge-cli/src/update-transaction.ts:25-71 | all calls of a run: every preflight, every stop in stop order, every start in start order followed at once by the verification of the new version, every preparation, until the first call that throws; after it the changed registrations are restored and the started replacements stopped, last first, and what was stopped is put back in start order, each started from its captured entry and confirmed |
| UpdateRows.UpdateTells | apps/bridge-cli/src/update-transaction.ts:48-73 | a run is undone if and only if some call after the preflights threw; then every row is true of the calls: a restored target was started from its captured entry, confirmed as it offers, in the version the row shows, and left alone since; a failed or stopped one for the reason it gives |
| UpdateRows.UpdatedIsVerified | apps/bridge-cli/src/update-transaction.ts:38-48 | a report with one updated row is of a run in which nothing threw and every running target was started new, verified at once in the new version, and left alone since |
| UpdateRows.ThrownUpdatesNothing | apps/bridge-cli/src/update-transaction.ts:36-73 | when any call threw, a verification included, nothing is reported as updated |
| UpdateScript.SortedIsStable | apps/bridge-cli/src/update-transaction.ts:34-38 | targets of one rank keep their order |
| UpdateSafety.FailedPreflightTouchesNothing | apps/bridge-cli/src/update-transaction.ts:27-27 | after a failed preflight no stop, start or preparation was called |
| UpdateSafety.UpdatesAreOrderly | apps/bridge-cli/src/update-transaction.ts:25-75 | in every trace a start follows a stop that returned with no start since, an old version comes only from the captured entry, and no child is stopped before a stop of every running OpenClaw was attempted |
| UpdateReport.ServiceWaitsForItsChildren | apps/bridge-cli/src/update-transaction.ts:18-71 | OpenClaw never starts beside a child left down, in any world, if and only if no running OpenClaw has a captured entry or every running child has one |
| UpdateReport.RollbackLeavesChildDown | apps/bridge-cli/src/update-transaction.ts:59-70 | when no new version starts, an OpenClaw with a captured entry is started while a child without one stays down |
| UpdateReport.EveryTargetIsReportedOnce | apps/bridge-cli/src/update-transaction.ts:50-73 | a failed run reports each target once, plus once for a registration that could not be restored, and never an update |
| UpdateReport.CleanReportMeansRestored | apps/bridge-cli/src/update-transaction.ts:51-71 | a failed run whose rows show no failed rollback call has every stopped target on its captured entry and every registration restored |
| UpdateReport.PutBackIsExact | apps/bridge-cli/src/update-transaction.ts:50-71 | a target the run stopped is back on its captured entry if and only if one was captured and neither stopping its replacement nor starting it threw; a registration is restored unless restoring threw |
| UpdateReport.QuietRollbackPutsBack | apps/bridge-cli/src/update-transaction.ts:50-71 | when no call of the rollback throws, the stopped targets that are back are exactly those with a captured entry, and every registration is restored |
| UpdateReport.SuccessRunsTheNewVersion | apps/bridge-cli/src/update-transaction.ts:38-48 | a successful run leaves every running target on the new version and every other untouched |
| StableSort.SortOrders | apps/ios/Clawket/NativeHistoryWorkOrder.swift:37-37 | sorting orders, and keeps every element |
| StableSort.SortIsStable | apps/bridge-cli/src/cli-logs.ts:66-66 | elements of one key keep their order |
| WorkSequences.ArrangedTwice | apps/ios/Clawket/NativeHistoryWorkOrder.swift:16-31 | arranging what is arranged changes nothing |
| WorkSequences.SpliceKeepsAll | apps/ios/Clawket/NativeHistoryWorkOrder.swift:38-43 | splicing keeps every ID once, the others in their order and the block in its own, and is idempotent |
| WorkOrderLaws.ExistingIsTidy | apps/ios/Clawket/NativeHistoryWorkOrder.swift:11-11 | in a valid journal a conversation's runs and steps, sorted apart, are the whole order restricted to them |
| WorkOrderMerge.MergeKeepsTheRule | apps/ios/Clawket/NativeJournalStore.swift:65-72 | a merge keeps the journal valid; when it reindexes, the orders are exactly 0 to n - 1 and the next order is n |
| WorkOrderMerge.MergeOnlyReorders | apps/ios/Clawket/NativeHistoryWorkOrder.swift:46-55 | no run, step or review is lost, added or changed but for its order |
| WorkOrderMerge.OthersKeepTheirOrder | apps/ios/Clawket/NativeHistoryWorkOrder.swift:33-43 | records outside the conversation keep their relative order |
| WorkOrderMerge.HistoryOrderWins | apps/ios/Clawket/NativeHistoryWorkOrder.swift:15-32 | the runs of the read stand in the read's order |
| WorkOrderMerge.StepsStand | apps/ios/Clawket/NativeHistoryWorkOrder.swift:24-32 | each run's steps stand as the read arranges them |
| WorkPlaces.MergeIsTold | apps/ios/Clawket/NativeHistoryWorkOrder.swift:5-56 | a merge whose read names no run of its conversation changes nothing; any other keeps every record, gives them the orders from 0 up, and decides for any two which comes first: runs and steps the read places stand in its order, before the others on an earlier page, between the settled and the live on a head; others keep their order; a run stands right before its steps; the conversation stands where its first record stood, and all else as it did |
| WorkPlaces.RunsArePlaced | apps/ios/Clawket/NativeHistoryWorkOrder.swift:12-22 | which of two runs of the conversation comes first |
| WorkPlaces.StepsArePlaced | apps/ios/Clawket/NativeHistoryWorkOrder.swift:24-32 | which of two steps of one run comes first |
| WorkPlaces.BlocksArePlaced | apps/ios/Clawket/NativeHistoryWorkOrder.swift:23-32 | a run's record stands right before its steps, and no other record among them |
| WorkPlaces.OthersArePlaced | apps/ios/Clawket/NativeHistoryWorkOrder.swift:33-43 | a record outside the conversation stands before its records if and only if it stood before the first of them; among each other these keep their order |
| WorkOrderMerge.MergeIsIdempotent | apps/ios/Clawket/NativeHistoryWorkOrder.swift:5-56 | a second identical merge changes nothing |
| WorkJournal.JournalDocument.MergeHistory | apps/ios/Clawket/NativeHistoryWorkOrder.swift:5-56 | the in-place merge leaves the merged journal, in which any two records stand as the read and their orders before decide |
| WorkJournal.JournalDocument.Reindex | apps/ios/Clawket/NativeHistoryWorkOrder.swift:45-55 | every order is rewritten in place and the runs are sorted |
| WorkJournal.JournalDocument.SpliceBlock | apps/ios/Clawket/NativeHistoryWorkOrder.swift:38-43 | the loop with its flag is the splice |
| LogText.DecodeInvertsEncode | apps/bridge-cli/src/cli-logs.ts:46-47 | what RFC 3629, section 3, encodes is decoded, with nothing held back |
| LogText.DecodeJoins | apps/bridge-cli/src/cli-logs.ts:87-87 | decoding in pieces is decoding at once, wherever the bytes are cut; an unfinished sequence is held back by its first byte's high bits, and an invalid one replaced once, up to the byte that breaks it |
| LogText.SplitJoins | apps/bridge-cli/src/cli-logs.ts:87-88 | splitting in pieces is splitting at once, even when a cut falls between CR and LF |
| LogText.FeedsAlign | apps/bridge-cli/src/cli-logs.ts:47-49 | dropping text up to its first line feed is dropping bytes up to theirs, even when the window begins inside a character |
| LogMeaning.FrontIsTold | apps/bridge-cli/src/cli-logs.ts:87-87 | the front of any bytes decodes to the character that is there, or is held back while it may become one, or gives one replacement character for the longest part that begins a character, or for one byte |
| LogMeaning.SplitInvertsWriting | apps/bridge-cli/src/cli-logs.ts:52-52 | splitting gives back the lines that were written, each without its LF or CRLF, and what follows the last of these |
| LogMeaning.SnapshotBeginsWithALine | apps/bridge-cli/src/cli-logs.ts:45-50 | what a snapshot keeps begins at the first line that begins in what it read of its window, if one does, and goes to the end of that |
| LogFollow.SnapshotIsBatch | apps/bridge-cli/src/cli-logs.ts:44-55 | a snapshot shows exactly the non-empty lines that begin in what was read of its window, and none when that lies inside one line |
| LogFollow.WindowInsideALine | apps/bridge-cli/src/cli-logs.ts:45-50 | following starts at the beginning of a line if and only if the window does not lie inside one line |
| LogFollow.ShortReadsSkip | apps/bridge-cli/src/cli-logs.ts:32-53 | what the snapshot keeps and later bytes are one stretch of the log if and only if the snapshot's read was full |
| LogFollow.PollIsBatch | apps/bridge-cli/src/cli-logs.ts:85-90 | a poll carries the batch, without empty lines, on by the bytes it read |
| LogFollow.FollowingIsBatchSplitting | apps/bridge-cli/src/cli-logs.ts:36-95 | the snapshot's lines and all later polls' are one split, without empty lines, of what the snapshot kept and all bytes appended, for every log and however reads cut them |
| LogFollow.FollowingDeliversWhatWasWritten | apps/bridge-cli/src/cli-logs.ts:36-95 | on valid UTF-8 they are the non-empty lines that were written |
| LogFollow.NarrowIsQuiet | apps/bridge-cli/src/cli-logs.ts:89-89 | a log is followed without omissions in every way of reading it if and only if no cut after the snapshot leaves an unfinished line over the window before it |
| LogFollow.CarriageReturnCounts | apps/bridge-cli/src/cli-logs.ts:88-89 | a line of exactly one window whose carriage return arrives before its line feed is omitted, although it fits |
| LogFollow.QuietOmitsNothing | apps/bridge-cli/src/cli-logs.ts:89-89 | an omission is reported if and only if an unfinished line exceeded the window |
| LogMeaning.ReplacedLogIsReadAnew | apps/bridge-cli/src/cli-logs.ts:81-90 | a log that was replaced or cut short is followed from its beginning: the lines delivered since are one split, without empty lines, of its bytes, and nothing read before is left |
| LogMeaning.PollReads | apps/bridge-cli/src/cli-logs.ts:81-86 | a poll reads on, or from the beginning of another file, by what is there, what one read gives or 256 KiB, whichever is least |
| LogMeaning.OmissionDropsTheLine | apps/bridge-cli/src/cli-logs.ts:87-90 | a poll that finds too long an unfinished line says so first, delivers the lines before it and forgets what it has of it: what is delivered later is one split of what follows |
| LogView.ReorderingIsFaithful | apps/bridge-cli/src/cli-logs.ts:65-68 | the snapshot's order is a permutation that fixes undated lines and sorts dated ones |
| LogView.ShownIsTold | apps/bridge-cli/src/cli-logs.ts:61-68 | exactly the last recent or undated lines are shown, at most as many as asked: undated ones where they stood, dated ones in order of time, those of one time as they came |
| LogView.Show | apps/bridge-cli/src/cli-logs.ts:62-68 | filter, slots and the last lines, by the loop with its counter: what is shown is told by `Told` |
| LogView.LogReader.ReadSnapshot | apps/bridge-cli/src/cli-logs.ts:42-54 | the reader's snapshot is the specified one, and leaves the specified cursor |
| LogView.LogReader.ReadUpdates | apps/bridge-cli/src/cli-logs.ts:80-90 | a poll delivers and leaves exactly what is specified, also after rotation or truncation |

## Left out

- HistoryRuns.RevisionsNeverDecrease: speaks of conversations the process has read, because a write to one it has not may lower its revision.
- HistoryReapplying.ReapplyingIsAFixedPoint: speaks of a second application in which every report is recognized as the row made of it, and a kept row counts as changed exactly if it did the first time.
- LogView.LogReader.ReadSnapshot: takes the one byte before its window as read.
- The live transcript, prompt media and drafts beside the outbox's messages: `body` stands for text and media.
- Reset, delete and archive of a session (`prepareSessionMutation`, `sessionMutationFinished`): their fence is the same as a rollover's, their remote outcome is not part of this model.
- `historyResourceIDs`, `allMediaResourceIDs` and the release of media files: reclamation is not modelled; which resources a read retires is.
- Listing and reading archives (`physicalArchives`, `physicalArchive`): reads of the catalog that `CatalogGrows` describes.
- Cancellation of store calls: a refused write stands for it.
- `NativeHistoryOperation`, `historyUTF16Prefix`: small and independent of the protocols.
- `NativeJournalStore.write` and `allocateOrder`, and limits on text in the journal: the revision guard repeats the conversation store's; the journal's rule here is the one on IDs and orders.
- Transcript export (`NativeHistoryExportLoader.pages`) and its formats.
- Reading a directory of log sources, `logTimestamp` and option parsing: a line's timestamp is a parameter.
- Bridge pairing, relay and registry calls, process listing, package staging, lock files, notifications and all views.
