# Verified model of the UNS archiver's durable core

The archiver accepts MQTT events durably, holds or releases them per destination table, writes them in shared batches
and backfills history across restarts. This project models that core in Dafny and proves what it promises.

JavaScript runs one section at a time between awaits. Each component is therefore a state machine whose steps are these
sections; a run is any list of steps, so a statement about all runs covers every interleaving. What SQLite, the file
system, clocks, the destination and other parts of the program answer is a parameter of the step. Beside each machine
stands a class with the program's fields and loops, whose methods are proved to take the machine from state to state.

| files | component |
|---|---|
| `JournalModel`, `JournalRows`, `JournalInvariant`, `JournalBounds`, `JournalPause`, `JournalReceipts`, `JournalBoundary`, `JournalCommands`, `JournalReopen`, `JournalTracking`, `JournalParts`, `JournalStarts`, `JournalRulings`, `JournalOperations`, `ObservationBudget`, `ReplayFairness`, `ReplaySkips`, `ReplayStarvation`, `TargetJournals` | the durable target journal: admission, pause rules, writes, receipts, commands, recovery, replay |
| `HistoricalSource`, `UtcInstants`, `JsonTexts`, `HistoricalImport`, `HistoricalRows`, `HistoricalCleanup`, `HistoricalSteps`, `HistoricalImporter`, `HistoricalJobs`, `HistoricalStarts` | the checkpointed backfill over the journal, its paged source, its instants and its job ranges |
| `BatcherModel`, `BatcherSettlement`, `BatcherTiming`, `BatcherCounters`, `BatcherOutcomes`, `BatcherDraining`, `IlpBatcher` | the batcher in front of the one sender buffer, with its retry loop |
| `TopicFilters` | MQTT filter matching, subsumption and minimisation |
| `LegacyModel`, `LegacyCompletion`, `LegacyOutcomes`, `LegacyBounds`, `LegacyVisits`, `LegacyCommands`, `LegacyPasses`, `LegacyImporter`, `DirectoryScans` | the import of a retained event directory |
| `IngestModel`, `IngestAccounting`, `IngestAnswers`, `IngestQueue` | the bounded ingest queue |
| `BindingCacheModel`, `BindingCache` | the entity-binding cache and its inverse index |
| `Common`, `TextOrders` | options, and the orders on texts: by code points and by UTF-16 units |

Where the code does less than one would expect, the project says exactly when:

- The journal refuses to reopen exactly after an admission that extended a branch rule and ended before the policy file
  was written (`JournalReopen.RefusalExactly`).
- A "paused" boundary is truthful exactly while no pending covered row carries the in-write mark; it can mislead after a
  lost outcome (`JournalBoundary.BoundaryTruth`, `JournalBoundary.PausedCanMislead`).
- Replay passes order targets by code points and compare the cursor by UTF-16 units. Where the two orders agree, a waiting
  target is visited within ceil(N / batch) passes (`ReplayFairness.ReplayIsFair`). Otherwise it can starve exactly if,
  among some batch + 1 of the names, the program goes on behind one of them not with the next but with the one after it
  (`ReplayStarvation.FairExactly`, `ReplayStarvation.SkippedStarves`, `ReplaySkips.NoSkipIsFair`).
- `filterSubsumes` misses one containment of well-formed filters, `+/#` over `#`, which costs a redundant subscription
  and nothing else (`TopicFilters.SubsumesExactly`). Ill-formed filters that differ only behind a `#` remove each other
  (`TopicFilters.PairMeaning`); a list without such a pair keeps its meaning, and a list with one does exactly when
  finitely many topics are still matched (`TopicFilters.NoTwinsKeepMeaning`, `TopicFilters.MeaningExactly`).
- The batcher's reported age may be that of a row already settled, exactly while such a row of the running batch is older
  than every row that is not (`BatcherTiming.AgeOfUnsettled`).
- A pause does not wait for the running pass and does not look at the state again after taking the lock, so it can turn a
  completed import into a paused one, exactly when it had passed its first guards before
  (`LegacyCommands.CompletionIsLost`, `LegacyCommands.PauseOvertakesCompletion`).
- The matcher follows sections 4.7.1.2 and 4.7.1.3 of MQTT 3.1.1 and not section 4.7.2: a leading `$` is a level like
  any other, and so it is here.

## Model

| member | source | states |
|---|---|---|
| JournalPause.PauseBarrier | src/target-journal.ts:598-696 | From a state in which a table is covered by a rule, over every run in which its last covering rule is not resumed: the table stays paused, no write to it is installed, and whatever is handed to the destination for it had been installed before |
| JournalPause.PauseEndsOnlyByResume | src/target-journal.ts:741-803 | Over all steps, crash and reopening included, a table stops being paused only in the step that resumes its last covering rule; overlapping rules stay independent |
| JournalPause.RunClosed | src/target-journal.ts:444-499 | In every run each rule lists exactly the tables that its selector stands for over all observations made so far; a rule carried here in a policy file lists those it came with and, for a filter, what it stands for over the observations made since |
| JournalPause.AdmitAllClosed | src/target-journal.ts:444-520 | An admission records every observation of its parts and extends each matching rule, carried here or not, in the same transaction, so a newly matching table is paused at once |
| JournalPause.PausedMeans | src/target-journal.ts:255-276 | In every run, from any policy carried here, isPaused holds exactly when some rule names the table, has a filter that matches a topic ever observed for it, or listed the table when it was carried here |
| JournalPause.ExecuteRules | src/target-journal.ts:741-803 | An executed pause appends its rule, an executed resume removes exactly the rule it names, nothing else changes the rules |
| JournalInvariant.RunKeepsInv | src/target-journal.ts:230-696 | In every run, through success, failure, acknowledgement, trimming, crash and reopening: the counters of each target equal the number of its pending rows, the sum of their bytes and the number of attempted ones; a row whose flight has not settled is pending, as it was when the flight began; no row is in flight twice; activeBytes is the sum of their bytes |
| JournalBounds.RunWithinLimits | src/target-journal.ts:512-541 | Under fixed limits every reachable state keeps the bytes within half the budget, pending rows within the limit per target, and flights within their number and bytes |
| JournalBounds.StartsInOrder | src/target-journal.ts:598-625 | A row is started only when every pending row of its target with a lower sequence number is already in flight |
| JournalBounds.HeadFits | src/target-journal.ts:598-625 | With nothing in flight, a due head row of a target that may write is started, if the limits admit one event of the largest size |
| JournalBounds.DefaultHeadFits | src/target-journal.ts:528-534 | The default limits are of that kind |
| JournalStarts.HeadsComplete | src/target-journal.ts:598-625 | A head of a table that may write passes over rows in flight and goes on until it has started as many rows as it may, or every one of the first 1024 pending rows of the table is in flight, or the first that is not is not due or has no place beside the flights and bytes then in use |
| JournalStarts.HeadsSound | src/target-journal.ts:598-625 | A head starts nothing for a table that may not write, and else installs only due pending rows within that reach, no more than it may, and changes nothing else |
| JournalReceipts.RunHistory | src/target-journal.ts:626-685 | In every run each admission has at most one recorded delivery, is never handed over after it, is confirmed exactly when it has one, and counts as attempted or marked exactly when it was handed over |
| JournalReceipts.AcceptedPartsAreKept | src/target-journal.ts:502-597 | After an accepted admission, in every later run: for each entry, the row stored before under its id, or a new one with the content of the first entry of that id, is pending unchanged or has its own recorded delivery |
| JournalReceipts.NothingLost | src/target-journal.ts:598-696 | A pending part stays pending and unchanged through every run until its own delivery is recorded |
| JournalReceipts.ReportedPartsWereWritten | src/target-journal.ts:559-573 | A part that is confirmed, as submit reports it, was accepted by the destination and recorded |
| JournalReceipts.LegacyReceiptStays | src/target-journal.ts:577-597 | A receipt with a legacy key survives live acknowledgement, trimming, crash and reopening until acknowledgeLegacy names its key |
| JournalBoundary.BoundaryTruth | src/target-journal.ts:824-849 | In every state that reads "paused": no pending row of a paused table is in flight or was handed over without a known outcome if and only if none carries the in-write mark |
| JournalBoundary.PausedIsTruthful | src/target-journal.ts:630-696 | In every run in which the outcome of each write can be stored, with any crash and reopening, a "paused" boundary is truthful |
| JournalBoundary.CrashShowsUncertain | src/target-journal.ts:230-237 | A row that a crash left marked makes the reopened journal report an uncertain outcome for its covered table |
| JournalBoundary.AttemptedNeverPaused | src/target-journal.ts:824-849 | While an attempted row of a covered table is pending, the boundary does not read "paused" |
| JournalBoundary.PausedCanMislead | src/target-journal.ts:649-668 | A concrete run in which the transaction after a failed write is lost: the boundary reads "paused" although a row was handed over with unknown outcome |
| JournalCommands.RunFollows | src/target-journal.ts:698-823 | In every run from an empty journal the command ids are distinct and the rules in force are the accepted pauses that were not resumed |
| JournalCommands.RevisionCountsCommands | src/target-journal.ts:741-803 | Nothing is taken out of the command log, and between policy imports the revision grows by one for each accepted command |
| JournalCommands.RetryIsHarmless | src/target-journal.ts:698-760 | After any further run, repeating a recorded request leaves the store as it is and can only return the recorded response; with the same body and actor it does, unless the journal is closed or faulted |
| JournalCommands.CommandIsAtomic | src/target-journal.ts:741-823 | Whatever the reply, policy and receipt of a command are stored together or not at all |
| JournalRulings.ResumeExactly | src/target-journal.ts:741-803 | A resume that is heard is accepted if and only if its revision is in force, no command drains, a rule has the id, no write to a covered table is under way, the outcome of none is unknown or that is confirmed, and it is stored and mirrored; with the status of each refusal, said of rules, flights and rows |
| JournalRulings.PauseExactly | src/target-journal.ts:741-803 | So for a pause: fewer than 64 rules, and at most 10000 tables for the new one |
| JournalRulings.AcceptedEffects | src/target-journal.ts:741-803 | What an accepted command leaves: rules, next revision, receipt, policy file, and rows and flights as they were |
| JournalRulings.FaultedEffects | src/target-journal.ts:760-823 | What a granted command leaves that fails: a fault and the old store, or the new policy with its receipt and the old file |
| JournalRulings.RejectedEffects | src/target-journal.ts:698-760 | A refused request changes nothing, except that a fault that can be cleared is, with the policy file written anew |
| JournalRulings.RefusedExactly | src/target-journal.ts:698-715 | Unnamed operators, closed journals and faults that stay are refused, each with its status, and nothing else is refused so |
| JournalRulings.OnRecord | src/target-journal.ts:716-735 | A request whose id is on record changes nothing and is answered by its record, or refused if it is another one |
| JournalRulings.BoundaryMeans | src/target-journal.ts:824-849 | The boundary in terms of rules, flights and rows: running, draining with the number of covered flights, uncertain exactly when an attempted row of a covered table is pending, else paused |
| JournalRulings.RunInSchema | src/target-journal.ts:66-86 | In every run the stored policy keeps within 64 rules of at most 10000 tables |
| JournalOperations.AdmissionExactly | src/target-journal.ts:502-554 | A part is admitted if and only if it is well formed, its pair of topic and table can be observed, and it is stored already or has room beside the pending bytes and rows and on disk; only one that is not stored adds a row, with its content and size |
| JournalOperations.AdmitAllSnoc | src/target-journal.ts:505-554 | A batch is admitted part by part, and as a whole or not at all |
| JournalOperations.SubmissionExactly | src/target-journal.ts:502-557 | A refused batch leaves the store and a fault; an accepted one leaves a fault only if changed rules could not be mirrored |
| JournalOperations.Utf8Means | src/target-journal.ts:512-530 | The size of a part is that of the UTF-8 encoding of its texts, and 512 |
| TextOrders.Utf8Reads | src/target-journal.ts:512-530 | Reading the octets of a character back gives the character, and none has more octets than it needs |
| JournalOperations.BeginExactly | src/target-journal.ts:630-648 | A write that begins marks exactly its row and hands over exactly that row, or is over with a fault |
| JournalOperations.SucceedExactly | src/target-journal.ts:669-688 | A write that succeeded confirms exactly its row, which gives up payload and bytes, or leaves it pending with a fault |
| JournalOperations.FailExactly | src/target-journal.ts:649-668 | A write that failed counts one attempt and delays exactly its row, or leaves its mark with a fault |
| JournalOperations.DelayDoubles | src/target-journal.ts:650-654 | The delay starts at the configured time, doubles with each of the first five attempts, and is at most 30 s |
| JournalOperations.FailuresExactly | src/target-journal.ts:649-688 | The failures of a table are counted one by one |
| JournalOperations.FinishExactly | src/target-journal.ts:689-692 | A settled write gives back its place and its bytes, and no other |
| JournalOperations.AcknowledgeExactly | src/target-journal.ts:577-588 | Acknowledging ids removes exactly their confirmed rows without a legacy key |
| JournalOperations.AcknowledgeLegacyExactly | src/target-journal.ts:589-597 | Acknowledging a legacy key removes exactly the confirmed rows under it |
| JournalOperations.TrimExactly | src/target-journal.ts:928-941 | Trimming removes exactly the receipts without a legacy key that 10000 newer ones follow |
| JournalOperations.ImportExactly | src/target-journal.ts:410-443 | When a policy is imported: an open journal without faults, pauses, writes under way and pending rows, with the same policy or none of its own |
| JournalOperations.ReopenExactly | src/target-journal.ts:230-283 | A restart counts one attempt for each write that it interrupted and keeps everything else of the rows, the policy and the log |
| JournalReopen.RefusalExactly | src/target-journal.ts:255-276 | From a state that can be reopened, the next step leads to a refused construction if and only if it extends the rules in an admission and ends before the policy file is written |
| JournalReopen.ReopensAfterAnyRun | src/target-journal.ts:255-276 | In every run without such a step the journal reopens with the policy that it had stored |
| JournalReopen.RefusalHappens | src/target-journal.ts:505-556 | A concrete admission after which the constructor refuses to open |
| ReplayFairness.ReplayIsFair | src/target-journal.ts:902-928 | In every run of one process: among N names that code points and UTF-16 units order alike, a target that waits at the start of each of ceil(N / batch) full passes is visited by one of them, whatever other targets come and go and whatever other steps fall between the passes and into them |
| ReplayFairness.PassProgress | src/target-journal.ts:912-928 | On targets ascending in UTF-16 units, a pass that does not visit the target shortens its cyclic distance from the cursor by the whole batch |
| ReplaySkips.NoSkipIsFair | src/target-journal.ts:902-928 | For any batch: in every run of one process, among names of which no batch + 1 let the program leave one out, a target that waits at the start of each of as many full passes as there are names is visited, although the orders may disagree |
| ReplaySkips.PassComesNearer | src/target-journal.ts:905-928 | Among such names, with a batch of at least two, a pass that leaves the target out moves the cursor from one name to another that is nearer to it, going around by code points |
| ReplayStarvation.FairExactly | src/target-journal.ts:902-928 | For every batch and all names that tables may have: some number of passes is enough in every run if and only if no batch + 1 of the names let the program go on behind one of them with the one after the next, or the batch is as large as the number of tables that a journal can ever hold |
| ReplayStarvation.SkippedStarves | src/target-journal.ts:902-928 | Where they do: from an empty journal, after one part for each of them was admitted, any number of full passes visits the others and never the one between, which waits through all of them |
| ReplayStarvation.FullWidthStarves | src/target-journal.ts:905-911 | The smallest such names, a full-width letter and an emoji with a batch of one |
| ReplaySkips.BatchOfOne | src/target-journal.ts:905-911 | With a batch of one a name can be left out if and only if the two orders disagree on some two names |
| ReplaySkips.NeverSkips | src/target-journal.ts:905-916 | No name can be left out where the two orders agree, nor with a batch for all names |
| ReplaySkips.GreatestLastSkips | src/target-journal.ts:905-916 | With any batch a name can be left out when it is behind a full window whose last name is the greatest in UTF-16 units |
| ReplayStarvation.WholePassVisits | src/target-journal.ts:902-928 | Whatever the orders, one pass with a batch for all names visits every target that waits |
| ObservationBudget.WaitingWithinBudget | src/target-journal.ts:444-458 | A journal never holds parts of more tables than it may observe pairs of topic and table |
| ObservationBudget.NextHolds | src/target-journal.ts:444-458 | Every step keeps the topic and table of each stored part among the observed pairs, and those within their budget |
| TextOrders.OrdersAgreeExactly | src/target-journal.ts:905-911 | The two orders agree on names exactly when no two of them first differ in a character from U+E000 to U+FFFF against one beyond |
| TextOrders.BasicNamesAgree | src/target-journal.ts:905-911 | They agree on names without a character beyond U+FFFF |
| ReplayFairness.WaitingTargets | src/target-journal.ts:902-912 | A pass considers exactly the targets with a pending row that no rule covers |
| JournalTracking.NextTracked | src/target-journal.ts:502-597 | Every step that neither submits an id nor acknowledges its key keeps at most one recorded delivery of it, and once there is one also the receipt that stops a second while that is needed |
| JournalTracking.ConfirmedOnce | src/target-journal.ts:559-573 | A tracked id that is confirmed has exactly one recorded delivery |
| TargetJournals.TargetJournal.Create | src/target-journal.ts:144-283 | The first construction yields the initial machine state under the carried policy file |
| TargetJournals.TargetJournal.Open | src/target-journal.ts:230-283 | Construction over earlier files yields the recovered state, or a closed journal when policy and file conflict |
| TargetJournals.TargetJournal.Observe | src/target-journal.ts:444-467 | The new observation and the extended rules, or nothing when the observation or rule budget is exhausted |
| TargetJournals.TargetJournal.AdmitEntry | src/target-journal.ts:512-554 | One part of the admission transaction, with its duplicate and capacity checks |
| TargetJournals.TargetJournal.AdmitTransaction | src/target-journal.ts:346-358 | All parts or nothing: a rollback restores store and policy |
| TargetJournals.TargetJournal.Admit | src/target-journal.ts:502-557 | The transaction and the mirroring of the policy, with the fault that a failure leaves |
| TargetJournals.TargetJournal.TryHead | src/target-journal.ts:598-625 | The loop over the window of pending rows starts exactly the flights of the specification |
| TargetJournals.TargetJournal.StartWrite | src/target-journal.ts:626-696 | A flight is installed with its bytes before anything can yield |
| TargetJournals.TargetJournal.Submit | src/target-journal.ts:502-562 | submit up to its first await: admission, then one head per distinct table in order of appearance |
| TargetJournals.TargetJournal.AllWritten | src/target-journal.ts:566-573 | The result of submit: true exactly when every part is confirmed, and then every part was written |
| TargetJournals.TargetJournal.BeginWrite | src/target-journal.ts:630-641 | The in-write mark and the hand-over, or a fault without a hand-over |
| TargetJournals.TargetJournal.WriteSucceeded | src/target-journal.ts:669-688 | Confirmation of the row and its counters, or a fault that leaves both |
| TargetJournals.TargetJournal.WriteFailed | src/target-journal.ts:649-668 | The delayed retry and its counter, or a fault that leaves both |
| TargetJournals.TargetJournal.Acknowledge | src/target-journal.ts:577-588 | Exactly the confirmed rows of these ids without a legacy key are deleted |
| TargetJournals.TargetJournal.ImportPolicy | src/target-journal.ts:410-443 | A policy without rules replaces one of a drained journal, with the next state of store and file |
| TargetJournals.TargetJournal.Boundary | src/target-journal.ts:824-849 | The reported phase and number of covered flights |
| TargetJournals.TargetJournal.Decide | src/target-journal.ts:698-803 | The ruling on a request: recorded, refused with its status, or to be executed with these rules |
| TargetJournals.TargetJournal.Commit | src/target-journal.ts:760-803 | The transaction of policy and receipt and the mirroring after it |
| TargetJournals.TargetJournal.Answer | src/target-journal.ts:698-823 | A request after its guards: ruling, commit and reply |
| TargetJournals.TargetJournal.Command | src/target-journal.ts:698-823 | command with its actor, fault and busy checks |
| TargetJournals.TargetJournal.VisitAll | src/target-journal.ts:902-928 | The visits of a pass move the cursor and start heads in the order of the specification |
| TargetJournals.TargetJournal.ReplayPass | src/target-journal.ts:902-941 | A pass visits the first targets in fair order and trims receipts beyond the newest ones |
| TargetJournals.DistinctTablesMeans | src/target-journal.ts:559-562 | The tables that a submit tries: those of its parts, each once, in the order of their first appearance |
| TargetJournals.HeadsAreARun | src/target-journal.ts:559-562 | The heads of submit are the run of the machine that tries each of these tables for one row, so every result about runs covers them |
| TargetJournals.VisitsAreARun | src/target-journal.ts:912-928 | So are the visits of a replay pass, with the cursor moving over the visited targets in order |
| HistoricalImport.CountsAreExact | src/historical-import.ts:512-603 | In every run of a job over a sealed source, with crashes between writes, checkpoint and receipts and with other traffic in the journal: written + skipped is the number of rows of the range at or below the stored cursor, and written counts exactly those before their cutoff |
| HistoricalImport.WrittenExactlyOnce | src/historical-import.ts:478-603 | In every such run no mapped row has more than one recorded delivery, and each one at or below the stored cursor has exactly one |
| HistoricalImport.CompletedCoversTheRange | src/historical-import.ts:545-558 | A completed job has covered its range: no invalid row, no shared cursor, and every row before its cutoff delivered once |
| HistoricalImport.IdsDiffer | src/historical-import-source.ts:317-345 | Rows of a job share an event or journal id only if they share their cursor, by the JSON text that the id digests |
| JsonTexts.ArrayTextDecides | src/historical-import-source.ts:323-337 | The JSON text of an array of strings determines the array, whatever text follows it |
| HistoricalImport.MoveKeeps | src/historical-import.ts:478-603 | Each section of the import, each journal step of others and each crash keeps the relation between stored job, journal and source |
| HistoricalImport.MapRowsMeans | src/historical-import.ts:428-452 | A mapped page holds the rows before their cutoff, no others, and as many |
| HistoricalImport.MapRowsFails | src/historical-import.ts:428-452 | A page fails as a whole if and only if a row has an unmapped series, or lies before its cutoff and does not convert |
| HistoricalRows.RowsGoWhereMapped | src/historical-import.ts:428-452 | In every run, with crashes at any point: what the journal holds under the id of a source row has the table and topic of the first mapping of its series, the key of the row and, while it is pending, its payload; and every hand-over under that id goes to that table |
| HistoricalRows.KeptExactly | src/historical-import.ts:428-452 | A row is written if and only if it lies before the cutoff of the first mapping of its series; without a mapping it fails its page |
| HistoricalRows.IdsOf | src/historical-import-source.ts:317-345 | What event id and journal id of a row consist of |
| HistoricalCleanup.NothingIsLeftBehind | src/historical-import.ts:478-590 | In every run: of the rows at or below the cursor the journal holds only such as a stored receipt names; while a page is written, and in a completed job, none |
| HistoricalSteps.PageBeginsExactly | src/historical-import.ts:535-563 | The next page begins if and only if there is one, its rows and the one behind it are valid and in strict order, and each can be mapped; it writes the rows before their cutoff, in order; otherwise it blocks the job |
| HistoricalSteps.RangeEndsExactly | src/historical-import.ts:545-558 | At the end of the range, and only there, what is visible completes the job, lets it try again, or blocks it |
| HistoricalSteps.CheckpointExactly | src/historical-import.ts:579-589 | A page is covered if and only if all its writes are reported: the cursor moves to its last row, the counters by its rows, and the receipts are those of its rows |
| HistoricalSteps.ReportExactly | src/historical-import.ts:566-578 | A write is reported exactly when the journal has its part confirmed |
| HistoricalSteps.AcknowledgingExactly | src/historical-import.ts:478-484 | Receipts are acknowledged one after the other and forgotten after the last |
| HistoricalSteps.RangeExactly | src/historical-import-source.ts:256-270 | The range consists of the rows of the source behind its start and the empty key, each as often as there |
| HistoricalImporter.MapPage | src/historical-import.ts:428-452 | The mapping loop yields the rows of the specification or fails as a whole |
| HistoricalImporter.ImportRun.ClearReceipts | src/historical-import.ts:478-484 | The loop acknowledges every receipt, then stores the job without them: a run of the machine |
| HistoricalImporter.ImportRun.BeginPage | src/historical-import.ts:535-563 | Read, check and map a page before anything is submitted; an error blocks the job |
| HistoricalImporter.ImportRun.SubmitOne | src/historical-import.ts:566-575 | One row is submitted: its entry is admitted and, exactly when it was accepted, the head of its table is tried, by a run of the machine that touches nothing else |
| HistoricalImporter.ImportRun.SubmitGroup | src/historical-import.ts:564-575 | The next eight rows are submitted, in whatever order the lookups before each end, and each is: a run of the machine |
| HistoricalImporter.ImportRun.GiveUp | src/historical-import.ts:590-603 | An error anywhere in a step leaves cursor, counters and receipts as stored |
| HistoricalImporter.ImportRun.ReportGroup | src/historical-import.ts:566-578 | The page goes on if and only if every part of its group is confirmed |
| HistoricalImporter.ImportRun.StoreCheckpoint | src/historical-import.ts:579-589 | Cursor, counters and receipts of a page are stored together, after its last group |
| HistoricalImporter.ImportRun.FinishRange | src/historical-import.ts:545-558 | The end of the range: completed, retried or blocked by what is visible |
| HistoricalSource.PageContinues | src/historical-import-source.ts:256-295 | A page is exactly the next rows of the range behind the cursor, as many as fit |
| HistoricalSource.CoveredToTheEnd | src/historical-import-source.ts:256-295 | Only a range without invalid rows and without two rows on one cursor is read to its end |
| HistoricalSource.CleanReads | src/historical-import-source.ts:256-295 | No read of such a range fails |
| HistoricalSource.DuplicateStopsReading | src/historical-import-source.ts:270-295 | Two rows with one cursor, on one page or across two, stop the reading at the first of them or before |
| HistoricalSource.ReadPage | src/historical-import-source.ts:256-295 | The checking loop returns the page or the error of the specification |
| HistoricalSource.CompareMeans | src/historical-import-source.ts:172-176 | The cursor comparison is the lexicographic order on time and key, and zero only for equal cursors |
| HistoricalSource.CoveredCount | src/historical-import-source.ts:256-295 | The covered rows are those at or below the cursor |
| UtcInstants.IsoKeepsOrder | src/historical-import-source.ts:163-170 | For instants from 1970 to the year 9999 the order of the printed texts is the order of the instants |
| UtcInstants.ReadPrinted | src/historical-import-source.ts:145-170 | A printed instant reads back as itself |
| UtcInstants.AcceptedIsCanonical | src/historical-import-source.ts:145-162 | A text is accepted as an instant, before 1970 or after, if and only if it prints a valid date and time of a year of four digits with that second, and a fraction |
| UtcInstants.OneDateTime | src/historical-import-source.ts:145-170 | Each second of the years 0 to 9999 has exactly one valid date and time, and no other second has one |
| HistoricalJobs.RangesAreDisjoint | src/historical-import.ts:365-426 | In every run of starts, reviews, state changes, faults and restarts: at most one stored job is open, ids are unique, and two jobs of one profile share no instant |
| HistoricalJobs.OverlapIsRefused | src/historical-import.ts:394-406 | A reviewed start is refused for an overlap if and only if a stored job of its profile shares an instant with the range |
| HistoricalJobs.TextTestIsExact | src/historical-import.ts:394-404 | The comparison of texts in the query holds exactly when the two ranges share an instant |
| HistoricalJobs.RetriedStart | src/historical-import.ts:365-375 | A repeated start returns the stored job and changes nothing; with another body or actor it is refused |
| HistoricalStarts.BeginExactly | src/historical-import.ts:365-387 | A new start is reviewed if and only if nothing keeps the service from it and both instants are written as such, at most 31 days apart and not beyond now; with the status of each refusal |
| HistoricalStarts.FinishExactly | src/historical-import.ts:388-426 | A reviewed start is stored, last and running, if and only if review, preview and contract agree, the service may write, and no stored job of the profile shares an instant; with what each refusal is |
| HistoricalStarts.SettleExactly | src/historical-import.ts:512-603 | The running job, and no other, takes the state that its import reports |
| HistoricalJobs.ImportStore.BeginStart | src/historical-import.ts:365-387 | The guards of a start in their order, up to its review |
| HistoricalJobs.ImportStore.FindOverlap | src/historical-import.ts:394-404 | The scan finds an overlapping job exactly when there is one |
| HistoricalJobs.ImportStore.FinishStart | src/historical-import.ts:388-426 | The checks after the review in their order, and the stored job |
| BatcherSettlement.SettledExactlyOnce | src/writers/questdb-ilp-batcher.ts:271-351 | In every run every admitted row is in exactly one place: settled once, carried by the running flush, or pending; rejectedRows counts the rejections |
| BatcherSettlement.ResolvedRowsWereSent | src/writers/questdb-ilp-batcher.ts:271-351 | In every run each flush held whole rows only: those of its own batch, in the order they came, without any rejected before; a row resolves only by a sent flush that held it, and a sent flush resolves all its rows |
| BatcherSettlement.PoisonStaysOut | src/writers/questdb-ilp-batcher.ts:332-351 | A row that was rejected is in no later flush |
| BatcherSettlement.DrainedIsSettled | src/writers/questdb-ilp-batcher.ts:201-211 | When nothing waits and no flush runs, exactly the admitted rows are settled, each once |
| BatcherSettlement.ClosedStaysClosed | src/writers/questdb-ilp-batcher.ts:160-166 | A closed batcher admits nothing |
| BatcherOutcomes.FailedFlushExactly | src/writers/questdb-ilp-batcher.ts:271-329 | In every run a failed flush is the last one of its batch if and only if the failure is permanent or the batch was then sent three times; the last one rejects exactly the rows it carried, any other settles nothing and the same rows are sent again |
| BatcherOutcomes.SentFlushExactly | src/writers/questdb-ilp-batcher.ts:296-310 | A flush that was sent resolves exactly the rows that it carried, in order |
| BatcherOutcomes.WriteExactly | src/writers/questdb-ilp-batcher.ts:332-351 | A row that cannot be written is rejected, and no other; one that can settles nothing |
| BatcherOutcomes.AnswerExactly | src/writers/questdb-ilp-batcher.ts:151-177 | In every run a row is admitted if and only if its hint is valid, the batcher is open, and waiting rows and those of the running batch leave room |
| BatcherOutcomes.FullBatchesFly | src/writers/questdb-ilp-batcher.ts:213-230 | In every run, while no flush is under way fewer rows wait than a batch may have |
| BatcherOutcomes.BatchIsTheOldest | src/writers/questdb-ilp-batcher.ts:239-256 | A flush begins with the oldest rows, as many as a batch may have |
| BatcherOutcomes.ConfigurationExactly | src/writers/questdb-ilp-batcher.ts:73-98 | A configuration is taken over value by value, with defaults for what is no positive integer and room for one batch |
| BatcherTiming.NeverStalls | src/writers/questdb-ilp-batcher.ts:213-269 | In every run: while rows wait and no flush runs, the timer is set to exactly the earliest deadline, and there are fewer rows than a batch |
| BatcherTiming.DeadlinesAreBounded | src/writers/questdb-ilp-batcher.ts:135-149 | No waiting row is due later than its arrival plus the interval in force |
| BatcherTiming.AdmittedRowIsDue | src/writers/questdb-ilp-batcher.ts:151-177 | An admitted row is due after the interval, or after the hint when that is sooner |
| BatcherTiming.DeadlinesOnlyShrink | src/writers/questdb-ilp-batcher.ts:135-177 | No step puts off the deadline of a row that already waits |
| BatcherTiming.OneFlushAtATime | src/writers/questdb-ilp-batcher.ts:239-269 | A running flush keeps its batch and is replaced by no other before it has finished |
| BatcherTiming.LoadIsBounded | src/writers/questdb-ilp-batcher.ts:160-166 | With a fixed configuration pending and flushing rows together stay within maxPendingRows |
| BatcherTiming.AgeOfOldest | src/writers/questdb-ilp-batcher.ts:179-183 | The reported age is that of the oldest row that waits or was taken by the running flush |
| BatcherTiming.AgeOfUnsettled | src/writers/questdb-ilp-batcher.ts:179-183 | In every run the reported age is never less than that of the oldest row that is not settled, and equals it if and only if no row of the running batch that is settled already, either way, arrived before that row |
| BatcherTiming.RejectedRowAges | src/writers/questdb-ilp-batcher.ts:179-183 | A concrete run in which the oldest unsettled row has just arrived and the age of a rejected row is reported |
| BatcherTiming.EarliestMeans | src/writers/questdb-ilp-batcher.ts:143-147 | The reduced deadline is the least deadline of the rows |
| BatcherCounters.DiagnosticsAreExact | src/writers/questdb-ilp-batcher.ts:184-198 | In every run the counters of successful, failed and retried flushes, each by itself, of waits and of the largest batch agree with the history, and the latest batch was sent at most three times |
| BatcherModel.Resolve | src/writers/questdb-ilp-batcher.ts:73-98 | A resolved configuration has positive limits and room for one batch |
| IlpBatcher.QuestDbIlpBatcher.Enqueue | src/writers/questdb-ilp-batcher.ts:151-177 | The reply and the new state: invalid hint, closed, full or admitted and scheduled |
| IlpBatcher.QuestDbIlpBatcher.ShortenDeadlines | src/writers/questdb-ilp-batcher.ts:138-143 | The loop over the waiting rows |
| IlpBatcher.QuestDbIlpBatcher.Configure | src/writers/questdb-ilp-batcher.ts:135-149 | New limits, shortened deadlines and a new timer |
| IlpBatcher.QuestDbIlpBatcher.EarliestDeadline | src/writers/questdb-ilp-batcher.ts:143-147 | One pass over the rows yields their earliest deadline |
| IlpBatcher.QuestDbIlpBatcher.ScheduleFlush | src/writers/questdb-ilp-batcher.ts:213-230 | Flush a full batch, keep a timer that is early enough, or set a new one |
| IlpBatcher.QuestDbIlpBatcher.FlushPending | src/writers/questdb-ilp-batcher.ts:239-256 | The oldest rows are taken in order and the deadline of the rest is kept |
| IlpBatcher.QuestDbIlpBatcher.TimerFires | src/writers/questdb-ilp-batcher.ts:221-227 | The timer is gone and a flush starts unless one is running |
| IlpBatcher.QuestDbIlpBatcher.WriteRow | src/writers/questdb-ilp-batcher.ts:338-346 | A row that fails is rejected and taken out, and the buffer is to be rebuilt |
| IlpBatcher.QuestDbIlpBatcher.AppendRows | src/writers/questdb-ilp-batcher.ts:332-351 | The rebuild loop ends, with every surviving row in the buffer or without rows: the run of the machine in which each write is answered as the sender answers it |
| IlpBatcher.QuestDbIlpBatcher.SendBuffer | src/writers/questdb-ilp-batcher.ts:283-329 | What an answer of the destination settles, and when it is tried again |
| IlpBatcher.QuestDbIlpBatcher.FlushBatch | src/resilience.ts:201-237 | The retry loop ends within its attempts with the flush over: the run of the machine that the answers of the sender determine |
| IlpBatcher.QuestDbIlpBatcher.FinishFlush | src/writers/questdb-ilp-batcher.ts:260-268 | The flush is gone and the rest is scheduled |
| IlpBatcher.QuestDbIlpBatcher.FlushToTheEnd | src/writers/questdb-ilp-batcher.ts:201-211 | The running flush and what its end starts: the run that the answers of the sender determine, which leaves fewer rows waiting or no flush |
| IlpBatcher.QuestDbIlpBatcher.Close | src/writers/questdb-ilp-batcher.ts:201-211 | Draining that nothing interrupts ends with no row waiting and no flush running, by the run that the answers of the sender determine, and nothing is admitted any more |
| BatcherDraining.DrainingEnds | src/writers/questdb-ilp-batcher.ts:201-269 | After close, whatever rows and sender answer and whatever calls fall between: only a fixed number of steps is ever due, one always is until nothing waits and no flush runs, and after that number of them this is so |
| TopicFilters.MatchMeaning | src/topic-matcher.ts:18-45 | Matching without a loop: levels agree before the first `#`, or in full |
| TopicFilters.MatchTopic | src/topic-matcher.ts:18-45 | The loop decides matching |
| TopicFilters.SubsumptionSound | src/index.ts:112-150 | A topic that matches the narrower filter matches every filter that subsumes it |
| TopicFilters.SubsumesExactly | src/index.ts:112-150 | For well-formed filters, containment of topic sets holds if and only if filterSubsumes says so or the pair is `+/#` over `#` |
| TopicFilters.MutualSubsumption | src/index.ts:112-150 | Two filters subsume each other exactly when they are equal or differ only behind a `#` |
| TopicFilters.MinimizeKeepsMeaning | src/index.ts:152-166 | For well-formed filters a topic matches some non-empty input filter if and only if it matches some output filter |
| TopicFilters.MinimizeMeaning | src/index.ts:152-166 | The output is, without repetition, the non-empty inputs that no other input subsumes |
| TopicFilters.MinimizeAntichain | src/index.ts:152-166 | No output filter contains another one |
| TopicFilters.NoTwinsKeepMeaning | src/index.ts:152-166 | For any list of filters, well formed or not, of which no two differ behind a `#` only: a topic matches some non-empty input filter if and only if it matches some output filter |
| TopicFilters.MeaningExactly | src/index.ts:152-166 | For any list of filters the meaning is kept if and only if the finitely many topics that stand for the filters with such a twin each match a filter of the list that no other one subsumes |
| TopicFilters.PairMeaning | src/index.ts:152-166 | For any two filters, well formed or not, the meaning is kept if and only if they do not differ behind a `#` only |
| TopicFilters.CoveredTwins | src/index.ts:152-166 | A concrete list of three that keeps its meaning in spite of such a pair, because a third filter covers both |
| TopicFilters.IllFormedPair | src/index.ts:152-166 | A concrete ill-formed pair that removes each other |
| TopicFilters.MinimizeFilters | src/index.ts:152-166 | Both loops compute the minimised list |
| IngestAccounting.CountersAreExact | src/bounded-ingest-queue.ts:71-186 | In every run, for every id: it is pending if and only if exactly one queued, processed or spilled item holds it; bytes, slots and spills are counted exactly; and queued work means that every slot is taken |
| IngestAccounting.NothingIsDropped | src/bounded-ingest-queue.ts:71-176 | In every run each accepted item is queued, being processed, processed or handed to the spill, once; when idle, one of the last two |
| IngestAccounting.NoWaiterIsForgotten | src/bounded-ingest-queue.ts:109-186 | In every run, when the queue is idle and somebody waits, a notification is on its way and releases everybody |
| IngestAccounting.ClampsNeverBite | src/bounded-ingest-queue.ts:151-176 | The clamps at zero never take effect |
| IngestAccounting.StaysWithinLimits | src/bounded-ingest-queue.ts:124-138 | With fixed limits the events, bytes and slots in use stay within them |
| IngestAccounting.DrainStartsTheOldest | src/bounded-ingest-queue.ts:132-138 | Draining fills the free slots with the oldest items in order and starts no more |
| IngestAnswers.AnswerExactly | src/bounded-ingest-queue.ts:71-93 | In every run an item whose id another one holds is a duplicate; any other is spilled if and only if the queued items and those that hold a slot are as many as may be pending, or its whole bytes do not fit beside theirs |
| IngestAnswers.AcceptedExactly | src/bounded-ingest-queue.ts:71-93 | What an accepted item becomes: the last of the queued ones, with free slots taken in order, or one more spill |
| IngestAnswers.NotifiedExactly | src/bounded-ingest-queue.ts:109-186 | In every run waiters are released, and nobody has to wait, exactly when nothing is queued, holds a slot or is being spilled |
| IngestAnswers.LimitsExactly | src/bounded-ingest-queue.ts:42-69 | A limit that is given is taken over, or 1 if it is no positive integer; one that is not given stays |
| IngestQueue.BoundedIngestQueue.Enqueue | src/bounded-ingest-queue.ts:71-93 | Duplicate, spilled or queued, with the new state |
| IngestQueue.BoundedIngestQueue.Drain | src/bounded-ingest-queue.ts:132-138 | The loop starts what the specification starts |
| IngestQueue.BoundedIngestQueue.Configure | src/bounded-ingest-queue.ts:66-69 | Normalised limits, then draining |
| IngestQueue.BoundedIngestQueue.ProcessSettled | src/bounded-ingest-queue.ts:140-161 | Success returns id, slot and bytes; failure begins a spill that keeps them |
| IngestQueue.BoundedIngestQueue.WaitForIdle | src/bounded-ingest-queue.ts:109-112 | The caller waits exactly when the queue is not idle |
| BindingCacheModel.CacheIsLeastRecentlyUsed | src/entity-binding-client.ts:206-223 | After any list of uses the bounded cache holds exactly the keys used last, in the order of their last use |
| BindingCacheModel.RemoveExact | src/entity-binding-client.ts:213-222 | Evicting a key keeps the index the exact inverse of the cache, without empty entries |
| BindingCacheModel.AddExact | src/entity-binding-client.ts:206-211 | So does storing one |
| BindingCacheModel.UsableExactly | src/entity-binding-client.ts:225-246 | An interval is usable from its begin up to its end, without it, and only if it was resolved; a bound that is no date excludes nothing |
| BindingCache.EntityBindingCache.Touch | src/entity-binding-client.ts:206-223 | The key is used last, the least recently used one makes room, other entries stay, and the index stays exact |
| BindingCache.EntityBindingCache.FindReusableInterval | src/entity-binding-client.ts:225-246 | Through the index: nothing exactly when no entry of the whole cache is usable for topic and instant, else a usable one that was fetched last |
| BindingCache.EntityBindingCache.Invalidate | src/entity-binding-client.ts:183-186 | Cache and index are empty |
| BindingCache.EntityBindingCache.ForgetTopicKeys | src/entity-binding-client.ts:193-197 | Exactly the topic's entries go, the others keep their order, and their number is returned |
| BindingCache.EntityBindingCache.InvalidateTopics | src/entity-binding-client.ts:188-200 | Exactly the entries of the given topics go, and their number is returned; a value that is no topic ends it with the earlier ones gone |
| BindingCache.EntityBindingCache.Lookup | src/entity-binding-client.ts:139-154 | A candidate is the entry under the very key if there is one, else the freshest stored interval; it is a hit exactly within its lifetime, and a hit is a use that changes nothing else |
| BindingCache.EntityBindingCache.Store | src/entity-binding-client.ts:171-172 | The controller's answer is stored as used last |
| BindingCache.EntityBindingCache.UseStale | src/entity-binding-client.ts:173-178 | A failed request is served from the candidate exactly within the longer lifetime, and the candidate is stored as used last |
| LegacyCompletion.CompletedMeansImported | src/legacy-import.ts:916-1113 | In every run, with sections of commands, errors and restarts between any two sections of a pass: a completed job, in memory or stored, means that the source holds only the state directory and the empty directory of the old archiver, quarantine is empty, and every other entry was an event file that the writer answered for |
| LegacyCompletion.NothingIsLost | src/legacy-import.ts:830-914 | In every run each initial entry is, unchanged, in exactly one of source, quarantine and the answered files |
| LegacyOutcomes.LeavesOnlyWithAnAnswer | src/legacy-import.ts:872-907 | A file leaves the source only in a step in which the writer answered written or duplicate, also when acknowledging it fails afterwards, or into quarantine |
| LegacyOutcomes.QuarantineStays | src/legacy-import.ts:1115-1136 | Nothing is taken out of quarantine by any run |
| LegacyOutcomes.ObstaclesPreventCompletion | src/legacy-import.ts:936-962 | With an entry that is no event file, or anything in quarantine, no run completes |
| LegacyOutcomes.EventsCanBeImported | src/legacy-import.ts:916-1113 | A source of nothing but admissible event files can be started and completed, with every one of them answered for |
| LegacyOutcomes.EventSourceCompletes | src/legacy-import.ts:916-1113 | So can a job that already runs over such a source |
| LegacyBounds.BatchIsBounded | src/legacy-import.ts:963-983 | In every run a pass holds at most a batch of files and at most the bytes allowed for one |
| LegacyBounds.CountersNeverOverstate | src/legacy-import.ts:882-896 | In every run, with restarts from any older checkpoint, the counters claim no more files than were answered for or quarantined |
| LegacyVisits.OnlyEventsAreImported | src/legacy-import.ts:957-983 | In every run what a pass has selected or imports is event files of the source of at most maxFileBytes, and nothing else |
| LegacyVisits.RefusedFileExactly | src/legacy-import.ts:957-965 | Any other plain file goes into quarantine, unchanged, and is counted, and the sweep goes on; if it cannot be moved it stays and the pass is over |
| LegacyVisits.EventFileExactly | src/legacy-import.ts:963-983 | An event file is selected, and the pass goes on exactly while one more file of any size has room |
| LegacyVisits.OtherEntryExactly | src/legacy-import.ts:936-956 | Its own directory and the emptied one are passed over; any other entry stays, is noted and makes the sweep unclean |
| LegacyVisits.AnsweredExactly | src/legacy-import.ts:872-907 | A file that was written, or had been before, leaves the source as answered and is counted, each in its own way |
| LegacyVisits.QuarantinedExactly | src/legacy-import.ts:872-907 | A file that the writer refuses goes into quarantine and is counted, or stays if it cannot be moved |
| LegacyVisits.UnansweredExactly | src/legacy-import.ts:872-907 | A file that is put off, not tried, or failed stays, and the sweep is not clean |
| LegacyVisits.SweepEndsExactly | src/legacy-import.ts:1004-1047 | A sweep is verified if and only if it read everything and left nothing; one that met an entry that is no plain file blocks the job |
| LegacyVisits.ReviewExactly | src/legacy-import.ts:1064-1089 | A verified source completes the job if and only if quarantine is empty and the job moved nothing there |
| LegacyVisits.VerificationEndsExactly | src/legacy-import.ts:1049-1063 | A verification is reviewed if and only if it counted no obstacle |
| LegacyVisits.CheckpointExactly | src/legacy-import.ts:1090-1113 | What a checkpoint stores, which source is released, and what a failure does |
| LegacyCommands.CommandsAreCounted | src/legacy-import.ts:313-404 | From every state without a command, owned or not: an undisturbed command takes effect exactly when all its guards pass, and then the job that it found behind the lock has its new state, the next revision and the command to remember; otherwise, and for a retry, no job changes |
| LegacyCommands.GuardsExactly | src/legacy-import.ts:313-385 | The guards of each action, said of the jobs in memory and behind the lock |
| LegacyCommands.AcceptedExactly | src/legacy-import.ts:345-404 | What a command leaves that passed its guards: the job, stored if its checkpoint was, and the source, released after a cancellation |
| LegacyCommands.CompletionIsLost | src/legacy-import.ts:345-404 | In every reachable state a step takes a completion back if and only if it is the assignment of a pause that had passed its first guards before the job was completed, or a restart from a checkpoint without the completion |
| LegacyCommands.CompletedStays | src/legacy-import.ts:345-346 | A completed job that no command had passed the guard of is changed by no run without a restart |
| LegacyCommands.PauseOvertakesCompletion | src/legacy-import.ts:386-401 | A concrete run in which a pause that had passed its guard turns a completed job, stored as completed, into a paused one |
| LegacyImporter.SourceRuntime.Scan | src/legacy-import.ts:936-1003 | The scan loop visits what it is handed, entry by entry, until the batch is full, an entry fails or the pass has to stop, and says at the end whether the directory was read through: exactly these steps of the machine |
| LegacyImporter.SourceRuntime.Import | src/legacy-import.ts:985-1030 | The loop over chunks of concurrent writes, which end in any order, each file with its own answer; before any chunk it may stop, which skips the rest, or be abandoned: exactly these steps of the machine |
| LegacyImporter.SourceRuntime.Sweep | src/legacy-import.ts:933-1047 | Scan, import and the end of a sweep, exactly in these steps of the machine; it ends in a verification, at a checkpoint, or idle |
| LegacyImporter.SourceRuntime.VerifyEmptyPass | src/legacy-import.ts:1049-1089 | One pass of the verification over the retained scan of an unchanged directory: each entry is inspected, then comes the end, with a look into quarantine if nothing was counted, a stop or an error; its traversal stands where the scan does |
| LegacyImporter.SourceRuntime.FinishPass | src/legacy-import.ts:1090-1113 | The checkpoint and release that end a pass, section by section until it is idle; what was completed stays so and nothing else becomes so |
| LegacyImporter.SourceRuntime.ReplayPass | src/legacy-import.ts:916-1047 | A whole pass, a verification or a sweep that may open one, from idle to idle: a run of the machine |
| LegacyImporter.SourceRuntime.ApplyCommand | src/legacy-import.ts:313-404 | The sections of a command in their order: the run of the machine that has no step of a pass between them |
| DirectoryScans.BoundedDirectoryScan.Pass | src/bounded-directory-scan.ts:41-99 | A pass visits, in order, the entries behind the cursor, as many as limits, stop requests, errors and the visitor let it, no fewer, and says complete exactly at the end of the listing; an error of opening, reading or visiting closes the cursor |
| DirectoryScans.BoundedDirectoryScan.Passes | src/bounded-directory-scan.ts:71-99 | Passes over an unchanged directory together visit each entry once, and all of them when one completes |

## Left out

- Files, SQLite internals, fsync, renames, HTTP, MQTT, GraphQL, the QuestDB client and token checks: their answers are parameters of the steps.
- IlpBatcher.QuestDbIlpBatcher.Close: drains without calls in between, as a loop of one method; `BatcherDraining.DrainingEnds` speaks of the same draining with any calls between its sections.
- Digests: treated as injective, so the digested text stands for its digest in event ids, request hashes and contracts.
- Clocks: monotone inputs; time in the batcher is a real number of milliseconds.
- The tables of a rule and of a selector: sets, so the order in which the stored document lists them is not modelled; a conflict of policies is a difference of these values.
- Journal: request and selector schemas, exportPolicy and its preflight, the destination id check, snapshot texts, timestamps of commands and failures, and the byte budget of the policy document (a parameter). Rules adopted from a carried policy file start without observations of their own. The file of a mirroring that fails after the rename arrives in a step of its own.
- TargetJournals.TargetJournal.ReplayPass: visits its targets without interruption, where the workers await between them; `ReplayFairness.ReplayIsFair` speaks of passes with any other steps between the visits.
- Delivery at the database is not claimed once: an acknowledgement that is lost is written again. The results count deliveries that the journal recorded.
- Historical import: preview, contract and seal checks, target inspection and visibility checks are parameters or verdicts; recording published sources after completion is not modelled. The source is fixed, as the seal guarantees, and a row at the very start of the range with an empty key is not selected, as in the query.
- HistoricalImporter.ImportRun.SubmitGroup: resolving the identity of an entity before a write is not part of this model; the order in which the eight lookups end is a parameter.
- Batcher: the exception of a failing reset or callback and callbacks that call back into the batcher are excluded; delays and jitter between attempts only pass time; total durations and texts of diagnostics are not counted.
- Retries are modelled as the batcher uses them; the circuit breaker and the classification of errors are not.
- Ingest queue: byte counts that are not finite, and callbacks that call back into the queue.
- Binding cache: the request to the controller, parsing and Unicode normalisation, which is a parameter; the NUL that joins the parts of a key is modelled by keeping them apart. An answer that arrives late may restore an invalidated or older entry, and no statement excludes it.
- Legacy import: one process at a time and nobody else adds files; one command at a time, others wait; locks of other hosts, a lock taken while the stored checkpoint cannot be read, file identity checks (their failure is an answer), read-ahead, rates and performance counters are left out.
- LegacyImporter.SourceRuntime.VerifyEmptyPass: the directory does not change while a verification is open, as no file is removed then; the sweep takes its entries as they are handed out, since files go while it runs.
- DirectoryScans.BoundedDirectoryScan.Pass: one caller at a time, because a second caller only shares the running pass.
- Row building and DDL of the writers, stored event replay, health messages, wiring and configuration: they would add easy members or depend on directory iteration under concurrent renames.
