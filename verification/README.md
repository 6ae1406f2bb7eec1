# Verification of the platform's protocols, schedulers and codecs

This project models the parts of the platform whose behaviour is hard to see from reading one
function, and proves what they keep. Rows of the database, timers, the network and every outcome of
a statement are parameters of the model, so a statement "for every run" ranges over all
interleavings, delays, losses, failures and restarts.

- **Queued restores** (`RestoreJobs`, `RestoreProtocol`, `RestoreInvariant`, `RestoreTheorems`,
  `RestoreLiveness`, `RestoreWitness`, `RestoreWorker`): any number of workers, operators and a clock,
  one database statement at a time, with the schema's check constraints and the worker's own code.
- **The palette** (`PaletteGroups`, `PaletteProtocol`, `PaletteInvariant`, `PaletteHistory`,
  `PaletteSuggestions`, `PaletteTheorems`, `PaletteWitness`, `SearchPalette`): keystrokes, waves of
  requests, retries and late answers. `Highlight` is the splitter of titles.
- **The event stream** (`EventStream`, `EventStreamDialect`): the incremental reader of chat answers.
- **Schedulers** (`HealthLoop`, `BackupSchedules`, `BackupAccounting`, `BackupRetaking`, `BackupEdits`,
  `BackupQueue`, `BackupRunner`, `BackupWitness`, `SpikeWatch`, `SpikeMap`).
- **Codecs and lists** (`Csv`, `Base64Url`, `RecentMemory`, `PushFold`, `CommandCenter`).

`Options`, `Text`, `Sequences` and `Lists` are shared.

## Where the code and its comments differ

The model follows the code. What the proofs say about the difference:

- Restores: the cancel check behind the claim never finds a cancel, because a cancel is only recorded
  while the job is queued (`SecondCancelCheckNeverFires`). The sweep goes by the age of the row, not by
  whether its worker is alive; a swept row frees the run's unique index, so two workers can write the
  same run's objects (`TwoWorkersCanWriteOneRun`), and only then (`TwoWorkersOnOneRunMeansASweep`,
  `SecondRestoreIsAdmittedIffSwept`). The parts the operator selected are not looked at
  (`WritesWhatWasNotSelected`, and exactly when by `WritesStayInTheSelectionIff`). The table may refuse a
  sweep's write, and the tick ends there; jobs end all the same (`EveryJobEnds`). The tick's count is the
  jobs it listed (`RestoreWorker.Platform.Tick`).
- Health: with the default interval of sixty seconds, and with any interval above thirty, no probe is
  ever run (`LongIntervalsNeverProbe`, `TheDefaultNeverProbes`). A slow probe run does silence the
  heartbeat (`TheGapIsReached`).
- Backup schedules: an unknown timezone does not disable a schedule, it arms it for the horizon
  (`BackupRunner.Runner.ChooseNext`). A slot is taken twice without an interruption only where the time of
  day cannot be read (`UninterruptedRetakingIff`, `ADisabledSlotIsTakenAgain`); the write routes store no
  such schedule, nor an enabled one with an unknown zone, so both take a row written past them. The second
  read does not look at the next run, a run uses the parts of the first read, and the rearm overwrites an
  edit made meanwhile (`AnEditDuringATickIsOverrun`; exactly when: `TakenEarlyIff`,
  `RowAsksForTheSchedulesPartsIff`, `RearmReplacesTheListedSlotIff`). Twenty schedules whose attempts fail
  can keep another off the list for ever (`TwentyFailuresStarve`). The refusal of a run without parts and
  the fallback to all parts are never taken, because the table lets no schedule name none
  (`EveryRunNamesParts`).
- Palette: waves bound one search, not the page (`OvertakenWavesPileUp`); the whole-index count goes
  out behind the last wave, not the first; suggestions outlive the words they were for
  (`SuggestionsOutliveTheirWords`, exactly when: `SuggestionsOutliveTheirWordsIff`); the sixth hit
  decides nothing (`TheSixthHitSaysNothing`).
- Command centre: an input that starts with `?` is never searched (`QuestionsAreNeverSearched`); a
  single word found in the hint alone does not match (`MatchesExactlyWhen`).
- Push: the status of an accepted delivery may be a refusal (`AcceptedWithARefusal`).
- Spikes: the map does more than save queries. A failure in the one asking of an hour loses its
  announcement (`OneAskingDecides`), and so does a spike that shows only later in the hour
  (`ALateSpikeIsLost`).

## Model

| member | source | states |
|---|---|---|
| RestoreJobs.SweepWriteSettles | crates/backup/src/restore_jobs.rs:525-600 | a sweep write ends a row exactly when it already was ended or still has the status it was read with; a row claimed in between keeps its claim, because the schema refuses the write |
| RestoreInvariant.ActionKeepsInv | apps/api/src/restore_job_runner.rs:100-350 | every action of any worker, operator or the clock keeps the protocol's invariant and only moves jobs forward |
| RestoreInvariant.EveryJobIsOk | database/migrations/0177_backup_restore_jobs.sql:38-133 | in every run each job's row passes the schema and agrees with what its workers did for it |
| RestoreTheorems.WritesAreGuarded | apps/api/src/restore_job_runner.rs:143-273 | the first write comes once, by the worker that claimed, after the run's own phrase, a priced and restorable preview and exactly one complete safety backup |
| RestoreTheorems.TerminalStatesMeanWhatTheySay | apps/api/src/restore_job_runner.rs:171-350 | aborted has written nothing, and so has failed unless a sweep failed it; succeeded had its phrase, preview and safety backup, and wrote exactly when media was offered |
| RestoreTheorems.TerminalIsForEver | crates/backup/src/restore_jobs.rs:480-503 | whatever happens later, an ended row stays as it is and what was done for a job is only added to |
| RestoreTheorems.FailedCheckIsTheLastEvent | apps/api/src/restore_job_runner.rs:190-244 | a job whose phrase, preview or partial safety backup failed its check never goes further, has written nothing and never succeeds |
| RestoreTheorems.RefusalIsFinal | apps/api/src/restore_job_runner.rs:190-273 | once the worker decides to refuse its job, for any reason, also a safety backup that could not be taken or an index that could not be read, nothing is ever written for it and it never succeeds |
| RestoreTheorems.WritesStayInTheSelectionIff | apps/api/src/restore_job_runner.rs:251-280 | a restore that succeeded wrote media only where media was selected if and only if it was selected or the preview offered none |
| RestoreTheorems.RecordedCancelIsHonoured | crates/backup/src/restore_jobs.rs:388-445 | a job with a recorded cancel writes nothing and never succeeds; it ends aborted exactly when its abort was not missed and no sweep came first |
| RestoreTheorems.SecondCancelCheckNeverFires | apps/api/src/restore_job_runner.rs:165-181 | once a job is claimed a cancel changes nothing, so the check behind the claim never finds one |
| RestoreTheorems.RunningRowsAreAttendedOrOrphaned | apps/api/src/restore_job_runner.rs:183-184 | a running row has its claimer on it unless an error exit or a crash left it |
| RestoreTheorems.TwoWorkersOnOneRunMeansASweep | apps/api/src/restore_job_runner.rs:103-122 | two workers on one run, neither of them about to write its refusal, imply a sweep of a row older than the limit, under its worker; a worker about to refuse may be a second one without a sweep, and writes nothing |
| RestoreTheorems.SecondRestoreIsAdmittedIffSwept | database/migrations/0177_backup_restore_jobs.sql:131-133 | while a worker is on a run and not about to write its refusal, the unique index admits another restore of it exactly when the first was swept |
| RestoreLiveness.EveryJobEnds | crates/backup/src/restore_jobs.rs:525-600 | every live job past the age limit ends, orphaned ones too, once one worker has begun enough sweeps that no fault or crash cut short, however many of them the table refused; the rank counts live rows ahead, and twenty for each unclaimed one |
| RestoreLiveness.CompletionPaysTwenty | crates/backup/src/restore_jobs.rs:525-600 | a sweep that went through ended the job or twenty live rows from in front of it |
| RestoreLiveness.RefusalPaysTwenty | crates/backup/src/restore_jobs.rs:566-598 | a sweep the table refused has found a row at least as old claimed since it was read, which can happen once for each |
| RestoreLiveness.SweepsAreAccountedFor | apps/api/src/restore_job_runner.rs:100-122 | every sweep begun was left, harmed by a fault or crash, or goes on |
| RestoreLiveness.ASweepMovesOn | crates/backup/src/restore_jobs.rs:566-598 | in every run the next statement of a sweep that is not through goes on to the next row or ends the sweep |
| RestoreWitness.TwoWorkersCanWriteOneRun | apps/api/src/restore_job_runner.rs:103-122 | a run in which two workers write objects of one run at once |
| RestoreWitness.WritesWhatWasNotSelected | apps/api/src/restore_job_runner.rs:251-280 | a run that writes objects for a job whose parts do not name media |
| RestoreWorker.Platform.Tick | apps/api/src/restore_job_runner.rs:100-141 | the tick is a run of the protocol under any interference; its count is the jobs listed, each tried once, a claim being this worker's and a try that reports no error having ended the row; without a count the last thing that happened is that the worker stopped in its sweep or at the read of the queue, and nothing was tried |
| RestoreWorker.Platform.FailStaleJobs | crates/backup/src/restore_jobs.rs:525-600 | a sweep that returns has ended every row its read found |
| RestoreWorker.Platform.RunOne | apps/api/src/restore_job_runner.rs:144-333 | a claimed call leaves the row ended, or passes an error on and leaves it orphaned |
| RestoreWorker.Platform.RestoreMedia | apps/api/src/restore_job_runner.rs:251-273 | the writing phase reports how many of the listed objects landed and how many did not, and leaves the job with its worker |
| PaletteGroups.WavesConcatenate | apps/admin/components/search-palette.tsx:431-438 | the waves make up the targets in order, none empty, none larger than three |
| PaletteGroups.CutWaves | apps/admin/components/search-palette.tsx:435-438 | the loop that cuts the targets makes those waves |
| PaletteGroups.WaveAt | apps/admin/components/search-palette.tsx:431-446 | the k-th wave is the slice of the targets the loop asks, three positions on |
| PaletteGroups.AnswersAreShown | apps/admin/lib/search-palette.ts:99-110 | a group shows the first hits of its answer, at most five, and is truncated exactly when the total exceeds them |
| PaletteGroups.TheSixthHitSaysNothing | apps/admin/components/search-palette.tsx:146-147 | with six hits the verdict is the total's alone: a missing or smaller total hides the sixth |
| PaletteInvariant.ActionKeepsInv | apps/admin/components/search-palette.tsx:387-524 | every keystroke, timer, answer, failure and retry keeps the palette's invariant |
| PaletteTheorems.ReadyGroupsAnswerTheBox | apps/admin/components/search-palette.tsx:387-410 | in every run the groups are the targets in their order, and a ready group shows an answer to the words in the box from its own provider |
| PaletteTheorems.ScreenIsTheHistory | apps/admin/components/search-palette.tsx:395-408 | every group is what the last word of its provider in this search says |
| PaletteTheorems.PendingMeansAskedOrToCome | apps/admin/components/search-palette.tsx:516-524 | a group is a skeleton exactly while its own request is in flight or its wave is to come |
| PaletteTheorems.SkeletonsWaitForTheNetwork | apps/admin/components/search-palette.tsx:428-462 | a skeleton means the pause runs or a request of this search is in flight: the waves never stop by themselves |
| PaletteTheorems.AtMostThreeAreOut | apps/admin/components/search-palette.tsx:431-446 | at most three first-pass requests of the current search are in flight, neighbours in the fixed order |
| PaletteTheorems.OvertakenAnswersAreDropped | apps/admin/components/search-palette.tsx:396-398 | an answer of an overtaken search changes nothing a reader sees, nor the current loop |
| PaletteTheorems.SettledScreenIsTheServers | apps/admin/components/search-palette.tsx:387-475 | when nothing is pending the screen is the server's answers provider by provider, however they were delayed or reordered |
| PaletteTheorems.TheTotalCoversTheScreen | apps/admin/lib/search-palette.ts:133-136 | in every run the groups' total is at least the rows shown |
| PaletteHistory.SharedAnswersAreToTheBox | apps/admin/components/search-palette.tsx:400-462 | highlighted words and the count come from answers to the words in the box, the count after the first pass, and nothing but a retry is asked twice |
| PaletteHistory.FirstTermsAreTheFirst | apps/admin/components/search-palette.tsx:400 | the words kept are those of the first answer of the search that had any |
| PaletteSuggestions.SuggestionsAreOwnOrStood | apps/admin/components/search-palette.tsx:413-475 | in every run the suggestions are what came for the search that is on, its rows or none when they failed, and until then exactly what stood when it began |
| PaletteSuggestions.OwnRowsAreForTheBox | apps/admin/components/search-palette.tsx:463-474 | what came for the search that is on answers the words in the box |
| PaletteSuggestions.SuggestionsOutliveTheirWordsIff | apps/admin/components/search-palette.tsx:413-428 | suggestions stand that the current search did not bring if and only if some came since the box last asked for nothing and its own have neither come nor failed |
| PaletteWitness.OvertakenWavesPileUp | apps/admin/components/search-palette.tsx:431-446 | for every number of searches a run with three first-pass requests in flight for each |
| PaletteWitness.ThreeForEachLoop | apps/admin/components/search-palette.tsx:431-446 | in every run at most three first-pass requests are in flight for each search whose loop still waits |
| PaletteWitness.SuggestionsOutliveTheirWords | apps/admin/components/search-palette.tsx:413-475 | a run that holds suggestions asked for other words than those in the box |
| SearchPalette.Palette.TimerFires | apps/admin/components/search-palette.tsx:430-475 | the callback is the protocol's step: the first wave and the suggestions go out |
| SearchPalette.Palette.OnAnswer | apps/admin/components/search-palette.tsx:395-401 | the callback is the protocol's step, with what the loop behind the wave does next |
| SearchPalette.Palette.RetryGroup | apps/admin/components/search-palette.tsx:517-524 | the retry is the protocol's step |
| Highlight.SplitHighlight | apps/admin/lib/search-palette.ts:207-231 | the loop over the matches answers the parts that the promises below determine |
| Highlight.PartsCover | apps/admin/lib/search-palette.ts:207-231 | the parts make up the title, a match is the first needle that occurs there, nothing occurs inside an unmatched part, and unmatched parts are never adjacent |
| Highlight.OnlyOneDescription | apps/admin/lib/search-palette.ts:207-231 | a list of parts keeps those promises exactly when it is the one the splitter makes |
| Highlight.HighlightedKeepsTheTitle | apps/admin/lib/search-palette.ts:197-231 | whatever the terms, the texts make up the title and every matched part is a term up to case |
| EventStream.StreamChat | apps/admin/lib/api.ts:1667-1712 | for every cutting into chunks the handlers see what the frames of the whole text say, up to the first that ends the stream |
| EventStream.SplitIsUnique | apps/admin/lib/api.ts:1678-1684 | a text is cut at leftmost blank lines in exactly one way, into its frames and its tail |
| EventStream.FramesOfAppend | apps/admin/lib/api.ts:1676-1684 | the frames of a text and a chunk are the frames of the text, then those of its tail with the chunk |
| EventStream.NothingFollowsAnEnding | apps/admin/lib/api.ts:1702-1709 | after an error frame no later frame reaches a handler |
| EventStreamDialect.StreamRoundTrip | apps/admin/lib/api.ts:1678-1693 | the frames of printed events read back as the events under every chunking |
| EventStreamDialect.StreamReachesTheHandlers | apps/admin/lib/api.ts:1678-1712 | under every chunking the handlers are called as if each printed event had been handed to them, up to the first that ends the stream |
| EventStreamDialect.AnswersReachTheHandlers | apps/admin/lib/api.ts:1694-1708 | for events with data that parses and a handler, that is one call for each, in order, and the stream stays open |
| EventStreamDialect.AgreesWithTheStandardIff | apps/admin/lib/api.ts:1685-1697 | on the lines both readings take alike, the client sees the event of section 9.2.6 of the WHATWG HTML standard if and only if there is one data line at most |
| EventStreamDialect.DataLinesRunTogether | apps/admin/lib/api.ts:1691-1693 | two data lines are joined without the line feed of the standard |
| EventStreamDialect.SpaceIsRequired | apps/admin/lib/api.ts:1688-1693 | a data line without the space is not seen, though the standard dispatches it |
| EventStreamDialect.EmptyDataIsNoEvent | apps/admin/lib/api.ts:1695-1697 | an empty data line is no event here and an event without data in the standard |
| EventStreamDialect.BareDataIsNoEvent | apps/admin/lib/api.ts:1691-1697 | a data line without a colon is not seen here and dispatched by the standard |
| EventStreamDialect.EmptyNameIsKept | apps/admin/lib/api.ts:1688-1690 | an empty event name stays empty here and means a message in the standard |
| EventStreamDialect.NamesAreTrimmed | apps/admin/lib/api.ts:1689-1690 | names agree with the standard's exactly when they need no trimming |
| EventStreamDialect.CrLfHasNoFrames | apps/admin/lib/api.ts:1678 | a text whose lines end in CR LF has no frame |
| HealthLoop.LongIntervalsNeverProbe | apps/api/src/health_runner.rs:82-103 | if each interval read, with the time to read it, exceeds thirty seconds, no probe is ever run |
| HealthLoop.TheDefaultNeverProbes | crates/health/src/incidents.rs:259 | the default interval and unreadable settings are such a case |
| HealthLoop.ProbesCanRunIff | apps/api/src/health_runner.rs:82-103 | with a fixed interval and a fixed time to read it, some run probes if and only if the two together are at most thirty seconds |
| HealthLoop.ProbesAreAtMostTwoIntervalsApart | apps/api/src/health_runner.rs:82-103 | below thirty seconds and with negligible work, runs start one to two intervals apart and every second turn is one |
| HealthLoop.TwoIntervalsAreReached | apps/api/src/health_runner.rs:82-103 | the bound of two intervals is reached |
| HealthLoop.ProbesKeepComing | apps/api/src/health_runner.rs:82-103 | with work that takes time, at most two heartbeats come between two probe runs, with an explicit bound on their distance |
| HealthLoop.HeartbeatGap | apps/api/src/health_runner.rs:51-103 | heartbeats are at most thirty seconds plus the longest run, read and write apart |
| HealthLoop.StaysFresh | apps/api/src/health_runner.rs:51-57 | below ninety seconds of work the staleness limit is never reached |
| HealthLoop.FailedWritesAddUp | apps/api/src/health_runner.rs:51-57 | heartbeats whose write fails add their gaps: two in a row keep a process with negligible work fresh |
| HealthLoop.TheGapIsReached | apps/api/src/health_runner.rs:94-101 | a probe run silences the heartbeat for its whole length |
| HealthLoop.HealthRunner.Serve | apps/api/src/health_runner.rs:89-103 | the endless loop, up to any number of turns, is the model the bounds are about |
| BackupAccounting.EveryBackupIsAccountedFor | apps/api/src/backup_schedule_runner.rs:182-213 | in every run a schedule's backup rows are its rearms, disablements and interruptions, and the one under way |
| BackupAccounting.CompletionSettles | apps/api/src/backup_schedule_runner.rs:188-212 | a completed attempt leaves its schedule disabled, or armed in a new slot strictly after the clock the rearm read |
| BackupAccounting.ASlotIsTakenTwiceOnlyExcused | apps/api/src/backup_schedule_runner.rs:88-222 | in every run, rows written past the routes included, a slot is taken again only if the first ending behind its earlier taking was an interruption, or a disablement with an edit after it that enabled the schedule with the slot standing |
| BackupRetaking.RoutesRetakeOnlyInterrupted | apps/api/src/routes/backups.rs:1177-1198 | as long as no row with an unreadable time of day is written past the routes, which refuse one, a slot is taken twice only if the earlier attempt was interrupted before it rearmed |
| BackupRetaking.ReadableSlotsAreRetakenOnlyInterrupted | apps/api/src/backup_schedule_runner.rs:188-205 | the same for every single attempt in every run: one that could read the time of day leaves its slot to be taken again only by an interruption |
| BackupRetaking.UninterruptedRetakingIff | apps/api/src/backup_schedule_runner.rs:188-205 | from an attempt under way with its slot standing, the slot can be taken again without an interruption if and only if the attempt could not read the time of day |
| BackupRetaking.DisablesIffUnreadable | crates/backup/src/cadence.rs:75-96 | an attempt goes on to disable its schedule exactly when the time of day cannot be read |
| BackupAccounting.AStandingSlotIsTaken | apps/api/src/backup_schedule_runner.rs:91-107 | whatever became of it before, every slot that stands and is due on an enabled schedule is taken by the next list that names it |
| BackupQueue.CertainlyListedIff | crates/backup/src/store.rs:977-991 | a due schedule is on every list of due schedules if and only if fewer than twenty others are due no later |
| BackupQueue.TwentyFailuresStarve | apps/api/src/backup_schedule_runner.rs:88-128 | with twenty others due no later whose attempts fail, a due schedule can be left out of any number of lists in a row, and nothing changes meanwhile |
| BackupQueue.DueReadExists | crates/backup/src/store.rs:977-991 | the query for due schedules always has an answer: the earliest twenty at most |
| BackupEdits.RowAsksForTheSchedulesPartsIff | apps/api/src/backup_schedule_runner.rs:139-170 | in every run a row asks for the parts its schedule had at the second read if and only if the last save since the list, if any, left them as listed; a schedule always names some |
| BackupEdits.RearmReplacesTheListedSlotIff | apps/api/src/backup_schedule_runner.rs:191-212 | in every run a rearm replaces the slot that was listed if and only if no operator wrote the next run, or removed the schedule, since the list |
| BackupEdits.TakenEarlyIff | apps/api/src/backup_schedule_runner.rs:139-153 | in every run a schedule is taken ahead of its next run if and only if the edits since the list leave it with a next run after the clock |
| BackupAccounting.ActionKeepsInv | apps/api/src/backup_schedule_runner.rs:88-222 | every statement, failure, crash and edit keeps the invariant behind it |
| BackupWitness.ADisabledSlotIsTakenAgain | apps/api/src/backup_schedule_runner.rs:188-205 | a run that takes one slot twice without any interruption, from a row whose time of day cannot be read; the routes refuse such a row, so it is written past them |
| BackupWitness.AnEditDuringATickIsOverrun | apps/api/src/backup_schedule_runner.rs:139-170 | for all new times: an edit during the tick is run early, with the old parts, and its next run is overwritten |
| BackupRunner.Runner.Tick | apps/api/src/backup_schedule_runner.rs:88-128 | the count is the attempts completed, up to errors that hid a completion |
| BackupRunner.Runner.RunOne | apps/api/src/backup_schedule_runner.rs:132-222 | an attempt that reports a run took the slot and completed once; one that reports nothing completed nothing |
| BackupRunner.Runner.ChooseNext | apps/api/src/backup_schedule_runner.rs:188-205 | only an unreadable time of day disables; an unknown zone is armed for the horizon |
| SpikeWatch.AnnouncedAtMostOnce | modules/analytics/src/privacy.rs:573-590 | no site and hour is announced twice, whatever fails or restarts and whatever the clock does |
| SpikeWatch.TheMapOnlySavesQueries | apps/api/src/analytics_runner.rs:41-44 | in runs without failures, where an hour is judged the same way whenever it is asked, the announcements are the same, in order, with and without the map |
| SpikeMap.TheMapIsSeenInLateSpikes | apps/api/src/analytics_runner.rs:81-92 | without failures the announcements agree with and without the map at every moment if and only if no process finds a spike in an hour it had found quiet |
| SpikeMap.ALateSpikeIsLost | apps/api/src/analytics_runner.rs:81-92 | two ticks whose announcements differ: quiet first, a spike in the same hour after |
| SpikeMap.MomentsAreTheRun | apps/api/src/analytics_runner.rs:69-138 | a run of ticks and restarts is the run of its single askings |
| SpikeWatch.OneAskingDecides | apps/api/src/analytics_runner.rs:81-100 | after a process asked about an hour, it never announces it later |
| SpikeWatch.Watcher.WatchSpikes | apps/api/src/analytics_runner.rs:69-138 | one tick over all sites is the step these runs are made of |
| Csv.ExportReadsBack | apps/admin/lib/developer.ts:169-200 | reading the export by section 2 of RFC 4180 gives the header and exactly the cells of every row |
| Csv.SameFileMeansSameRows | apps/admin/lib/developer.ts:169-200 | two exports are the same file exactly when their rows are the same up to null and empty |
| Csv.TableReadsBack | apps/admin/lib/developer.ts:182-199 | printing and reading any table of cells gives it back |
| Base64Url.ToBase64Url | apps/admin/lib/webauthn.ts:21-28 | the byte loop and the platform's encoder give the encoding the properties are about |
| Base64Url.FromBase64Url | apps/admin/lib/webauthn.ts:32-40 | the buffer holds the decoded bytes, and there is none exactly when the platform's decoder throws |
| Base64Url.DecodingUndoesEncoding | apps/admin/lib/webauthn.ts:21-40 | decoding an encoding gives the bytes back |
| Base64Url.EncodingIsUrlSafe | apps/admin/lib/webauthn.ts:27 | the alphabet of section 5 of RFC 4648, no padding, four characters for three bytes rounded up |
| Base64Url.ReencodingIsForCanonical | apps/admin/lib/webauthn.ts:21-40 | re-encoding what a text decodes to gives it back if and only if it is canonical |
| RecentMemory.Memory.PushRecentView | apps/admin/lib/search-memory.ts:78-87 | the stored list stays the first five distinct paths of the visits, newest first |
| RecentMemory.Memory.HideRecentSearch | apps/admin/lib/search-memory.ts:96-104 | the hidden list stays the first fifty distinct queries, newest first |
| RecentMemory.TheLatestIsShown | apps/admin/lib/search-memory.ts:78-87 | every entry shown is a remembered one, and nothing newer in the history has its path |
| RecentMemory.RememberedUntilTheListIsFull | apps/admin/lib/search-memory.ts:18-19 | an item is forgotten exactly when as many different others as the list holds came after it |
| Lists.BoundedListIsAPrefix | apps/admin/lib/search-memory.ts:84-86 | cutting after every step is the same as cutting the whole history once |
| PushFold.DeliverAll | apps/api/src/notification_runner.rs:323-437 | accepted exactly when a device took it; pruned are the devices answering 404 or 410, in order; the reason is the first one; the status is the last answer |
| PushFold.OrderDoesNotMatter | apps/api/src/notification_runner.rs:316-322 | verdict and pruned devices do not change when the devices are reordered |
| PushFold.AcceptedStatusMayBeARefusal | crates/notifications/src/delivery.rs:674-680 | the status is a success exactly when the last device that answered took it |
| PushFold.NobodyTookItForAReason | apps/api/src/notification_runner.rs:430-436 | a delivery nobody took always has a device's reason |
| CommandCenter.ReadingIsStable | apps/admin/lib/command-center.ts:44-58 | writing a reading back and reading it again changes nothing |
| CommandCenter.QuestionsAreNeverSearched | apps/admin/lib/command-center.ts:40-48 | the shortcut sheet opens for a lone question mark only, exactly if the input is not a question |
| CommandCenter.MatchesExactlyWhen | apps/admin/lib/command-center.ts:96-127 | a command has a rank exactly when every word of the term is in what it says, or the one word is in title, id, alias or keyword |
| CommandCenter.TiersAreNested | apps/admin/lib/command-center.ts:102-118 | the ranks up to 0, 1, 2 and 5 mean equal, starting, containing, and containing in title or aliases |
| CommandCenter.MatchesAreTheSortedRanks | apps/admin/lib/command-center.ts:134-146 | the answer is the ranked commands by rank and registry order, however they are sorted, and a limit keeps its first ones |
| CommandCenter.RecentRows | apps/admin/lib/command-center.ts:170-213 | the loop with its early break is the first rows of the history without repetition |
| CommandCenter.RecentRowsAreDistinct | apps/admin/lib/command-center.ts:163-213 | no two rows open the same thing, each has somewhere to go, and the limit holds |
| CommandCenter.GroupCommands | apps/admin/lib/command-center.ts:219-232 | one group for each name in order of appearance, each with its commands in order |
| CommandCenter.GroupingIsAPartition | apps/admin/lib/command-center.ts:215-232 | grouping keeps every command as often as it was sent, and no group is empty |

## Left out

- Deleting rows: a backup or restore row removed with its run or its organisation is not a step of the model.
- SQL, HTTP, sockets, serialisation and logging: each is a step that succeeds, fails, or fails after it took effect.
- Audit records, events and notifications that accompany a restore or a backup.
- Cryptography: push encryption, VAPID signatures and the derivation of the confirmation phrase are functions or outcomes.
- Cadence and timezone arithmetic: a next run is any instant after the clock it is computed from.
- The preview builder and the producers of backup parts: what they report is a parameter.
- The order and the duplicates that the check of a backup's parts removes; only its refusal of an empty list is modelled.
- The manual run of a schedule, which leaves the next run as it is.
- Two schedule workers, or two spike watchers, at once: their statements would interleave.
- Handlers and callbacks of the page that throw, and a palette that is closed while requests are in flight.
- The resolution card, the keyboard and the rendering of the palette; the pause between keystroke and effect is not a step, because the page runs the effect before the next event.
- UTF-8 decoding, JSON parsing and the engine of regular expressions: text is a sequence of characters, and case is folded one character at a time.
- Storage that refuses a write: every write of the browser's lists takes effect.
- HealthLoop.StaysFresh: is about heartbeats that are written; `HealthLoop.FailedWritesAddUp` bounds what failing writes add.
- SpikeWatch.TheMapOnlySavesQueries: is for hours that are judged the same way whenever they are asked; `SpikeMap.TheMapIsSeenInLateSpikes` is the exact condition for the others.
- CommandCenter.MatchCommands: sorting is modelled as insertion; the array is not sorted in place.
- PushFold.DeliverAll: the sentence of a failure is a value of a datatype, not its text.
- Modules that read permissions, counters, headers or intents, and the retention and sweep runners whose work is a total over a loop.
