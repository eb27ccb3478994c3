# A verified model of the kernel's audit, agent, approval and streaming cores

This project models five parts of the system and proves what they promise.

**The audit trail.** `Trails` says what a trail is: the entries held under sequence numbers, and the last number issued. The in-memory store (`InMemoryStore`) and the durable store (`DurableStore`, `RedbStore`) are both proved against it. The durable store has its five tables, three secondary indexes, index-directed queries and batched sweep. Its correlation and principal queries return exactly the reference's answer. Its time query returns it exactly when no earlier-stamped record is kept ahead of a later-stamped one. `AuditReading` says field by field who is owed which records, and every answer of either store is proved to be that. `TrailRuns` proves conservation over every run: the last number issued is the records held plus what the markers held say was removed. `AuditSinks` proves the same kind of account for the sink that feeds the trail.

**The agent loop.** `AgentRun` is the run as a state machine. `AgentLoop` is the class whose methods are the run's, proved to compute that machine. `AgentActions` says what each action does, case by case on what its surroundings answered. `AgentDrivers` proves termination, work bounds and the transcript property over whole sessions, `AgentRounds` what a whole run compacts and records, and `AgentOutcomes` what its calls come to, which tools it may call and what it answers. `WireMessages` converts a transcript for the Messages API, `SystemPrompts` says what its system messages come to, and `EndToEnd` composes the two: whatever a session's runs did, what goes out has alternating turns and every call answered at the head of the next turn. `Quotas` bounds the overshoot of ceilings shared by interleaved runs.

**The approval rendezvous.** `Approval` is the protocol as interleaved atomic steps: each lock section, atomic access, send, select outcome and drop. No question is answered twice. `ApprovalAsking` says when a request is turned away and how long its question is good for. `ApprovalAnswers` says over whole runs when an answer is returned and which accepted ones are not. `ApprovalClosing` says which answers a request can still return once the broker has closed. `ApprovalQueue` is the shared object itself.

**The streaming decoder.** `StreamEvents` reads events and reassembles tool calls. `SseFraming` splits bytes into lines, and `SseStandard` compares its payloads with the standard's. `WireResponses` converts a whole response. `StreamAgreement` proves that streaming says what the whole response says, `StreamInterleaving` that blocks streamed at once yield their calls, and `StreamEndToEnd` proves agreement from the bytes. `FinishReasons` says what a response finished as, whole and streamed, and `StreamFailures` what ends a stream that is no well-formed response.

**Two arithmetic kernels.** `CivilDate` proves the day-count arithmetic against a calendar defined one day at a time, on 64-bit integers. `Backoff` proves when the saturating doubling is the doubling it documents.

Run `dafny verify dfyconfig.toml` to check the whole project.

## Where the code and its documentation differ

The model follows the code. Each difference is stated as a lemma with its exact condition, and shown by one that exhibits it.

- `crates/audit/src/retention.rs:117-120` says a period longer than the clock has run produces a cutoff no record is at or before. A record stamped zero is at it: `AuditEntries.RetentionCutoffSweepsExactly`, `AuditEntries.AnEpochRecordIsSwept`.
- `crates/audit/src/store.rs:12-14` calls retention the removal of a prefix. A sweep spares gaps and markers, and records a clock that steps back left stamped later, so it is one only when none of those stands before what it removes: `InMemoryStore.RetainLeavesASuffixExactlyWhen`, `InMemoryStore.ASteppedBackClockBreaksThePrefix`, `InMemoryStore.AGapBreaksThePrefix`.
- `crates/audit/src/retention.rs:18-20` says a sweep that removed anything writes a marker saying so. The in-memory store removes before it writes, and with no sequence number left the marker is refused: `TrailRuns.AccountIsExactExactlyWhen`, `TrailRuns.RefusedMarkerLosesTheAccount`.
- `crates/agent/src/agent.rs:289-290` says an exhausted budget costs not even a compaction. The first action of a run makes room before it asks about the budget: `Quotas.RefusedRunCompactsExactlyWhen`, `Quotas.ARefusedRunCompacts`.
- `crates/agent/src/agent.rs:298-299` says a turn whose charge could not be recorded stays in the transcript. The charge comes before the reply is appended, so it does not: `AgentRounds.TakenTurnIsRecordedExactlyWhen`, `AgentRounds.AnUnchargedTurnIsLost`.
- `crates/api/src/quota.rs:30-31` says a principal ends a period at most one turn over its ceiling. Its runs can interleave, and each that is admitted under the ceiling spends its turn past it. With two at a time a ceiling on tokens or cost can be passed by almost two of the largest turns, and with three a ceiling on turns by two: `Quotas.OneTurnOfSlackExactlyWhen`, `Quotas.OvershootIsReached`, `Quotas.TwoRunsPassByMoreThanOneTurn`.
- `crates/approval/src/gate.rs:171-173` reports a late answer rather than claiming success, since nothing was permitted. An answer can be accepted and permit nothing all the same: the requester is cancelled or times out at the poll that would have returned it, or had already timed out and not yet dropped its receiver, or is dropped by its caller: `ApprovalAnswers.AcceptedAnswerIsReturnedExactlyWhen`, `ApprovalAnswers.AcceptedThenCancelled`, `ApprovalAnswers.AcceptedAfterTheTimer`, `ApprovalAnswers.AcceptedThenAbandoned`.
- `crates/approval/src/broker.rs:169-171` says a question whose answer would arrive after the system stopped must certainly not be granted. One the close drains never is, but a gate that took the question before the close can still send its answer, and the request can still return it: `ApprovalClosing.AnswerableOnceClosedExactlyWhen`, `ApprovalClosing.GrantedAfterTheClose`.
- `crates/api/src/scheduler.rs:173` promises doubling up to the cap. Past the thirty-second retry the factor stops growing: `Backoff.DelayIsAsPromisedExactlyWhen`, `Backoff.TheThirtyThirdRetryFallsShort`.

## Model

| member | source | states |
|---|---|---|
| `AuditEntries.RetentionCutoffSweepsExactly` | crates/audit/src/retention.rs:111-124 | A record is due exactly when its age has reached the retention period, or it is stamped zero |
| `AuditEntries.AnEpochRecordIsSwept` | crates/audit/src/retention.rs:117-124 | With a day kept and ten seconds on the clock, a record stamped with the epoch is due |
| `AuditReading.ShowsOnlyDeedsOfTheReader` | crates/api/src/audit.rs:510-538 | Whatever is asked, every decision or invocation shown has the reader, or whoever the reader acts for, as its actor, or the reader as the one it was done for |
| `AuditReading.AskedForEverything` | crates/api/src/audit.rs:510-538 | With no filter and no limit, the answer holds every gap and sweep, and of the rest exactly what the reader is a party to |
| `AuditReading.AStrangerReadsNothing` | crates/api/src/audit.rs:533-538 | One who is no party to the only record there is, and asks for everything, is shown nothing |
| `Trails.MatchingIsOwed` | crates/api/src/audit.rs:533-635 | What the stores' two predicates select is what is owed, field by field: parties, correlation, tool, kinds, an inclusive period, and refusals by outcome |
| `Trails.AnswerIsTheNewestMatches` | crates/audit/src/store.rs:100-114 | A query's answer is the records owed to the reader, newest first, none repeated, as many as the limit allows, and nothing left out is newer than anything shown |
| `Trails.AnswerReadsAsOwed` | crates/audit/src/store.rs:100-114 | The reference's answer holds nothing that is not owed, and everything that is when the limit does not bind |
| `Trails.TimeAnswerReadsAsOwed` | crates/audit/src/persistent.rs:418-444 | So does the time path's |
| `Trails.TimeAnswerAgreesExactlyWhen` | crates/audit/src/persistent.rs:373-444 | The time path gives the reference's answer if and only if the limit cuts no later-stamped match behind an earlier-stamped one |
| `Trails.UnboundOrOrderedTrailsAgree` | crates/audit/src/persistent.rs:373-444 | A limit that does not bind, or timestamps that never decrease with sequence, is enough for agreement |
| `Trails.BackwardsClockAlwaysShows` | crates/audit/src/persistent.rs:373-444 | If two matches' timestamps run backwards, some limit makes the two stores disagree |
| `Trails.LatestByTimeSplits` | crates/audit/src/persistent.rs:418-444 | What the time path keeps is the limit's worth of matches latest by (timestamp, sequence) |
| `Trails.OldestDueSplits` | crates/audit/src/persistent.rs:552-592 | A batch is as much of what is due as it may take, and everything in it is older than everything due that it leaves |
| `Trails.AppendedAccounts` | crates/audit/src/store.rs:85-98 | An append keeps the numbering and adds what its marker, if it is one, accounts for |
| `Trails.WithoutAccounts` | crates/audit/src/retention.rs:111-113 | Removing what is due removes no gap and no marker, so no account of an earlier removal |
| `InMemoryStore.QueryIsTheAnswer` | crates/audit/src/store.rs:100-114 | The reversed filter chain yields the answer the trail owes, for every query and reader, and what is owed field by field |
| `InMemoryStore.RetainRemovesTheDue` | crates/audit/src/store.rs:123-150 | `retain` leaves exactly what is not due, in sequence, and the count before says how many go |
| `InMemoryStore.RetainLeavesASuffixExactlyWhen` | crates/audit/src/store.rs:12-14 | A sweep removes a prefix of the trail if and only if no record about the trail and none stamped after the cutoff stands before a due one |
| `InMemoryStore.ASteppedBackClockBreaksThePrefix` | crates/audit/src/store.rs:123-130 | With a clock that steps back, the older record stays and the newer goes |
| `InMemoryStore.AGapBreaksThePrefix` | crates/audit/src/store.rs:123-130 | With a clock that never does, a gap stays and the newer record goes |
| `InMemoryStore.InMemoryAuditStore.constructor` | crates/audit/src/store.rs:57-66 | A new store holds nothing and has issued nothing |
| `InMemoryStore.InMemoryAuditStore.Append` | crates/audit/src/store.rs:85-98 | The next number is issued to the entry, or the append is refused with nothing changed when none is left |
| `InMemoryStore.InMemoryAuditStore.Read` | crates/audit/src/store.rs:100-114 | A query of the store is answered with what its reader is owed, and nothing else |
| `InMemoryStore.InMemoryAuditStore.RetainRecords` | crates/audit/src/store.rs:124-130 | The first lock section of a sweep removes exactly what is due and says how many |
| `InMemoryStore.InMemoryAuditStore.SweepOlderThan` | crates/audit/src/store.rs:123-140 | A sweep removes exactly what is due and marks it, writes no marker for nothing, and loses the marker when no number is left |
| `DurableStore.OneEntryPerRecord` | crates/audit/src/persistent.rs:294-342 | In a consistent store the time and correlation indexes hold exactly one entry a record |
| `DurableStore.IndexedPrincipalsAreTheParties` | crates/audit/src/persistent.rs:348-357 | The principal index names each party to a record once, and a filter on a principal concerns those records and the ones about the trail |
| `DurableStore.AppendBlocking` | crates/audit/src/persistent.rs:294-342 | An append keeps every index consistent and is the reference's append; with no number left it changes nothing |
| `DurableStore.RemoveRecord` | crates/audit/src/persistent.rs:594-629 | Removing a record deletes exactly the index entries its append made |
| `DurableStore.CollectSecond` | crates/audit/src/persistent.rs:462-492 | A scan reports corruption only for an index entry with no record, and otherwise keeps the visible matches up to the limit, one at least |
| `DurableStore.KeptOfRange` | crates/audit/src/persistent.rs:462-492 | Scanning one key's range keeps the newest matches in it |
| `DurableStore.MergedRanges` | crates/audit/src/persistent.rs:397-417 | Merging two ranges, each cut at the limit alone, loses nothing the limit would keep |
| `DurableStore.KeptOfTime` | crates/audit/src/persistent.rs:418-432 | The time scan keeps the matches last by (timestamp, sequence) |
| `DurableStore.IndexCoversMatches` | crates/audit/src/persistent.rs:384-460 | Whichever index a query is sent to, its range holds every record the query matches |
| `DurableStore.ScanCorrelation` | crates/audit/src/persistent.rs:384-396 | The correlation path yields the newest matches, whatever else the query filters on |
| `DurableStore.ScanPrincipal` | crates/audit/src/persistent.rs:397-417 | The principal path yields the newest matches across the principal's range and the system's |
| `DurableStore.ScanTime` | crates/audit/src/persistent.rs:418-444 | The time path yields the matches latest by (timestamp, sequence), in sequence order |
| `DurableStore.QueryBlocking` | crates/audit/src/persistent.rs:373-445 | No query on a consistent store fails; the correlation and principal paths equal the reference, the time path is the time answer, and on every path the reader is shown what they are owed and nothing else |
| `RedbStore.CollectDue` | crates/audit/src/persistent.rs:552-592 | The scan half of a batch collects the oldest sweepable keys, sparing gaps and markers, up to the batch |
| `RedbStore.RemoveDue` | crates/audit/src/persistent.rs:594-629 | The removal half takes exactly the collected records and keeps every index consistent |
| `RedbStore.SweepBatchBlocking` | crates/audit/src/persistent.rs:552-646 | A batch commits all of its removals with a marker of their number, or nothing |
| `RedbStore.CountDueBlocking` | crates/audit/src/persistent.rs:653-673 | The preview counts exactly what a sweep would remove |
| `RedbStore.MarkerSizesAddUp` | crates/audit/src/persistent.rs:227-249 | A sweep of n writes ceil(n / batch) markers, none empty, none over a batch, adding up to n |
| `RedbStore.RedbAuditStore.constructor` | crates/audit/src/persistent.rs:131-162 | A new store is consistent and empty |
| `RedbStore.RedbAuditStore.Append` | crates/audit/src/persistent.rs:172-188 | The durable append is the reference's append |
| `RedbStore.RedbAuditStore.Query` | crates/audit/src/persistent.rs:190-198 | The durable query refines the reference through two indexes, is the time answer through the third, and shows the reader what they are owed and nothing else |
| `RedbStore.RedbAuditStore.LastSequence` | crates/audit/src/persistent.rs:200-215 | The counter is the last number issued |
| `RedbStore.RedbAuditStore.CountOlderThan` | crates/audit/src/persistent.rs:251-256 | The preview is the number due |
| `RedbStore.RedbAuditStore.SweepBatch` | crates/audit/src/persistent.rs:227-249 | One turn of the loop takes a batch or what is left of one, and keeps the account of the whole sweep |
| `RedbStore.RedbAuditStore.SweepOlderThan` | crates/audit/src/persistent.rs:227-249 | The sweep ends, removes exactly what one `retain` would, returns the prior count, and leaves the markers that add up to it |
| `RedbStore.RedbAuditStore.SweepAmidAppends` | crates/audit/src/persistent.rs:227-249 | With appends between batches, nothing sweepable is left when the last batch commits, and nothing that was not due is gone |
| `TrailRuns.RunConserves` | crates/audit/src/persistent.rs:294-342 | Over every run of appends, sweeps and batches: issued numbers equal records held plus removals the held markers report, numbers are never reused, gaps and markers never go |
| `TrailRuns.ShortBatchLeavesNothing` | crates/audit/src/persistent.rs:241-247 | A batch that comes back short leaves nothing sweepable |
| `TrailRuns.BatchExtends` | crates/audit/src/persistent.rs:552-646 | A batch keeps balance, removes nothing that was not due, adds what it took to the account, and is marked with when, up to when and how many |
| `TrailRuns.MemoryRunConserves` | crates/audit/src/store.rs:85-140 | Over every interleaving of appends and two-step sweeps the equation holds with the in-flight removals added, and exactly once none is in flight while numbers last |
| `TrailRuns.AccountIsExactExactlyWhen` | crates/audit/src/store.rs:85-140 | In every run, whenever no sweep is in flight, the trail accounts for every number issued if and only if no marker was refused for want of one |
| `TrailRuns.RefusedMarkerLosesTheAccount` | crates/audit/src/store.rs:123-140 | There is a run from the empty store whose trail accounts for every number, and whose sweep then removes every record and leaves nothing that says so |
| `AuditSinks.EventStream.TryRecv` | crates/audit/src/sink.rs:154-173 | A receive returns the next event, how many were dropped, that the bus closed, or nothing |
| `AuditSinks.AuditSink.constructor` | crates/audit/src/sink.rs:72-79 | A new sink has handed over nothing |
| `AuditSinks.AuditSink.Record` | crates/audit/src/sink.rs:103-113 | Every entry is handed to the store once, and a refusal is counted |
| `AuditSinks.AuditSink.RecordGap` | crates/audit/src/sink.rs:116-127 | Dropped events are counted and handed over as a gap of that size |
| `AuditSinks.AuditSink.Accept` | crates/audit/src/sink.rs:132-148 | Each result is recorded as what it was; only a closed bus stops the reader |
| `AuditSinks.AuditSink.DrainStream` | crates/audit/src/sink.rs:159-166 | Draining one stream ends on an empty stream and on a closed one |
| `AuditSinks.AuditSink.Drain` | crates/audit/src/sink.rs:154-173 | The decisions are drained, then the invocations, with one account |
| `AuditSinks.DrainTopicReadsAll` | crates/audit/src/sink.rs:154-173 | A drain reaches the end of what was published and keeps the account of what it read and what it lost |
| `AuditSinks.RunAccounts` | crates/audit/src/sink.rs:181-205 | In every interleaving of publishing, lag, selection, cancellation and draining the account holds at every step |
| `AuditSinks.WhatIsPublishedWaits` | crates/audit/src/sink.rs:181-205 | What is published while the bus is open waits for the sink behind what was published before |
| `AuditSinks.ReadingEnds` | crates/audit/src/sink.rs:181-205 | A cancellation, or a select that finds the bus closed, goes over to the drain |
| `AuditSinks.DrainEnds` | crates/audit/src/sink.rs:154-173 | Each step of the drain leaves fewer, and with none left it has finished |
| `AuditSinks.NothingIsQuietlyLost` | crates/audit/src/sink.rs:103-205 | At the end, each type's entries reached the store in publication order and with the reported drops are all that was published before its drain ended; both counters are exact, gap entries included, and each gap is stamped when it was handed over |
| `Conversation.ScanMeansInPlace` | crates/agent/src/run.rs:436-451 | Reading a transcript left to right accepts exactly the ones in which every answer is in place |
| `Conversation.NothingOpenMeansAnswered` | crates/agent/src/run.rs:180-215 | Nothing is left open exactly when every call has one answer, in call order, before any other message |
| `AgentRun.AdvanceKeepsOrder` | crates/agent/src/run.rs:152-215 | After every action the unanswered calls are the announced one and then the pending ones; one that ends the run, however it ends, leaves none |
| `AgentRun.AbandonAnswersAll` | crates/agent/src/run.rs:190-215 | Abandoning answers every outstanding call once, in order |
| `AgentRun.CallToolKeepsOrder` | crates/agent/src/run.rs:520-587 | A call is answered whether its tool ran, failed, or was never available |
| `AgentRun.TurnKeepsOrder` | crates/agent/src/run.rs:360-465 | A turn records its calls ahead of any answer, on every path it can fail by |
| `AgentRun.PrepareSettles` | crates/agent/src/run.rs:241-291 | Preparation leaves nothing unanswered, wherever it stops |
| `AgentRun.FinishedMeansDone` | crates/agent/src/run.rs:436-465 | Only the last update says the run has finished, and then no call is outstanding |
| `AgentActions.AStoppedRunStartsNothing` | crates/agent/src/run.rs:190-235 | A cancelled or expired run fails as that, starts nothing, and closes off each outstanding call with an error that tells of it |
| `AgentActions.TheFirstActionPrepares` | crates/agent/src/run.rs:241-291 | The first action goes on as from a run whose tools are those listed that are allowed, and whose transcript has the prompt of a fresh session, what making room wrote, and the question |
| `AgentActions.FailingToPrepareFails` | crates/agent/src/run.rs:241-291 | What stands in the way of preparing is what the run fails as, with nothing taken or called |
| `AgentActions.ATurnIsTaken` | crates/agent/src/run.rs:360-465 | A turn is refused at the limit, by the budget or for want of a window; stopped by its round of compaction; or put to the model, and then its reply is recorded, its calls pending, its other parts shown in order, and its usage added up |
| `AgentActions.TheFirstPendingCallIsAnnounced` | crates/agent/src/run.rs:500-512 | The first pending call is announced, or at the limit the run fails with every call closed off |
| `AgentActions.AnAnsweredCallIsRecorded` | crates/agent/src/run.rs:520-587 | The registry's answer to a call, made as announced, is recorded and shown as it was given |
| `AgentActions.AFailedCallIsToldOf` | crates/agent/src/run.rs:520-587 | A failed call is recorded as an error of that kind and message; a run stopped meanwhile still records it, and then closes off the rest |
| `AgentActions.AnUnavailableCallIsNotMade` | crates/agent/src/run.rs:520-587 | A call to a tool the run does not have is not made, and is recorded as not found |
| `AgentDrivers.AdvanceBounded` | crates/agent/src/run.rs:163-178 | Every action keeps the run within its limits and every successful one lowers the measure |
| `AgentRounds.NoRoundFollowsAFruitlessOne` | crates/agent/src/run.rs:312-357 | Over a whole run, its first action included, no compaction is asked for after one that came back empty or failed |
| `AgentRounds.AFailedTurnMayCompactTwice` | crates/agent/src/run.rs:274-277 | A run whose first turn fails at the model can have asked for two rounds and taken no turn |
| `AgentRounds.TakenTurnIsRecordedExactlyWhen` | crates/agent/src/run.rs:408-440 | A turn an action has taken is appended to the transcript it was asked on if and only if its charge could be recorded and the reply was not cut short |
| `AgentRounds.AnUnchargedTurnIsLost` | crates/agent/src/run.rs:408-440 | A run whose charge fails has called the model and counted the turn, and its transcript ends with the question |
| `AgentDrivers.EveryRunEnds` | crates/agent/src/agent.rs:350-391 | A run ends within max_turns + 2 * max_tool_calls + 1 actions, within max_turns model calls and max_tool_calls invocations of prepared tools; one that answers compacts at most once a turn and once before |
| `AgentDrivers.DriveKeepsOrder` | crates/agent/src/agent.rs:350-391 | However a driven run ends, its transcript is left with every call answered |
| `AgentDrivers.SessionAnswersEveryCall` | crates/agent/src/run.rs:152-215 | Over any sequence of runs in a session every tool call is answered exactly once, in order, before anything else is said |
| `AgentOutcomes.DriveIsItsActions` | crates/agent/src/agent.rs:350-391 | A driven run is its actions one after another up to the first that fails or finishes: it comes to where they leave it, shows all they show in order, and ends as the last of them does |
| `AgentOutcomes.TraceIsTheActions` | crates/agent/src/run.rs:152-178 | Each of them is what the run, as it stood after those before, did next |
| `AgentOutcomes.RunAnswersComeFrom` | crates/agent/src/run.rs:190-587 | Over a whole run, every answer recorded comes from one of its actions: the registry's answer to the call then announced, or an error that tells of the call's failure, the lack of the tool, or what stopped the run |
| `AgentOutcomes.OutcomesAreTheRegistrys` | crates/agent/src/run.rs:520-587 | Every result a run adds that is not marked an error is what the registry answered to a call of that id, made to a tool the run had |
| `AgentOutcomes.ToolsAreTheAllowedOnes` | crates/agent/src/run.rs:241-246 | A run's tools are those listed at its first action that its settings allow, in that order; it calls no others, so none its settings do not allow |
| `AgentOutcomes.AnswerIsTheLastWord` | crates/agent/src/run.rs:436-465 | What a run answers is the last message of its transcript, whole, with the usage its turns told |
| `AgentLoop.Run.constructor` | crates/agent/src/run.rs:122-146 | A new run is the fresh state of the machine |
| `AgentLoop.Run.MakeRoom` | crates/agent/src/run.rs:312-350 | Compaction is asked for only when records are dropped, and the run stops asking once it is pointless |
| `AgentLoop.Run.Prepare` | crates/agent/src/run.rs:241-291 | Tools, prompt, room and question, in that order, stopping where one fails |
| `AgentLoop.Run.Turn` | crates/agent/src/run.rs:360-465 | A turn is the machine's turn |
| `AgentLoop.Run.Announce` | crates/agent/src/run.rs:500-512 | A call is taken from the head of the pending ones, or refused at the limit |
| `AgentLoop.Run.CallTool` | crates/agent/src/run.rs:520-587 | A call is the machine's call |
| `AgentLoop.Run.TakeStep` | crates/agent/src/run.rs:163-178 | A step is the machine's step |
| `AgentLoop.Run.AbandonOutstandingCalls` | crates/agent/src/run.rs:190-215 | The announced call and then the pending ones are answered |
| `AgentLoop.Run.Advance` | crates/agent/src/run.rs:152-161 | An action of the run is the machine's, with the calls of a failed one abandoned |
| `AgentLoop.Stream` | crates/agent/src/agent.rs:350-380 | The streaming driver yields every update of the driven run and then its error, if it ended on one |
| `AgentLoop.RunToEnd` | crates/agent/src/agent.rs:382-391 | The blocking driver returns the response the same run streams last, or the same error |
| `WireMessages.ConvertBlocksLoop` | crates/anthropic/src/protocol.rs:293-343 | The block loop is the specified conversion, first error included |
| `WireMessages.ConvertMessages` | crates/anthropic/src/protocol.rs:237-275 | The message loop, extending the last turn in place, is the specified conversion, and the prompt is what the system messages say, a blank line between neighbours, or none when there is none |
| `WireMessages.ConvertsExactlyWhen` | crates/anthropic/src/protocol.rs:237-359 | A conversation converts if and only if every part of every message may be sent under its role |
| `WireMessages.ConvertFailsAtTheFirst` | crates/anthropic/src/protocol.rs:237-359 | One that does not is refused for its first part that may not be sent |
| `WireMessages.SystemTextJoin` | crates/anthropic/src/protocol.rs:278-291 | A system message says its parts' texts in order, with nothing between them |
| `WireMessages.SystemGoesOut` | crates/anthropic/src/protocol.rs:237-275 | What every system message says is in the prompt, in order, and there is a prompt exactly when there is a system message |
| `SystemPrompts.SpacedJoin` | crates/anthropic/src/protocol.rs:270-273 | Two stretches of system messages are joined by one blank line |
| `WireMessages.BlocksCarryWhatWasSaid` | crates/anthropic/src/protocol.rs:293-343 | A message's blocks carry its parts in order, dropping nothing but empty text |
| `WireMessages.ConvertKeepsShape` | crates/anthropic/src/protocol.rs:237-275 | Turns alternate, none is empty, and everything said goes out in order |
| `WireMessages.ConvertPairsCalls` | crates/anthropic/src/protocol.rs:237-275 | Each turn's tool_use ids are answered by the tool_result ids that open the next, as far as the transcript has got |
| `WireMessages.AnsweredTranscriptsConvertWell` | crates/anthropic/src/protocol.rs:237-343 | A transcript with every call answered goes out well shaped, complete, its system messages included, and with every call paired |
| `EndToEnd.SessionsConvertWell` | crates/agent/src/run.rs:152-587 | Whatever a session's runs did, what converts has alternating turns, everything said, the system messages' texts, and each call answered at the head of the very next turn |
| `Quotas.ChargedRecords` | crates/quota/src/ledger.rs:39-57 | The ledger's row is the sum of what was recorded, saturated, in every dimension |
| `Quotas.AdmittedExactlyWhen` | crates/agent/src/run.rs:368-374 | In every history a run is let take a turn if and only if its guard could decide and what is recorded has reached no ceiling; otherwise it is over |
| `Quotas.TurnsComeTo` | crates/agent/src/run.rs:400-430 | A turn is recorded and the run goes on; a charge that cannot be recorded, or a model that fails, ends it |
| `Quotas.NextStaysWithin` | crates/agent/src/run.rs:372-430 | Every check, answer, failure and end keeps what is spent and what is under way within one charge a run of the ceiling |
| `Quotas.OvershootIsBounded` | crates/api/src/quota.rs:27-35 | With k runs interleaved, a ceiling is passed by less than k of the largest charges, counting even turns that could not be recorded |
| `Quotas.TurnsNeverPassByMoreThanTheRuns` | crates/api/src/quota.rs:27-35 | A ceiling on turns is passed by at most k - 1 |
| `Quotas.OvershootIsReached` | crates/api/src/quota.rs:27-35 | The bound is reached whatever is counted: k runs admitted one unit short of the ceiling each spend the largest charge past it |
| `Quotas.OneTurnOfSlackExactlyWhen` | crates/api/src/quota.rs:27-35 | For every ceiling and largest charge, the one turn of slack that is documented holds if and only if the ceiling is zero, one run goes at a time, no turn counts, or two go and no turn counts for more than one |
| `Quotas.TwoRunsPassByMoreThanOneTurn` | crates/api/src/quota.rs:27-35 | There are two runs whose turns cost ten tokens at most and that end nineteen over a ceiling of ten |
| `Quotas.OneRunPassesByOneTurn` | crates/api/src/quota.rs:27-35 | A single run passes a ceiling by less than the turn that crossed it cost |
| `Quotas.RefusedRunCallsNoModel` | crates/agent/src/run.rs:368-374 | A refused run calls no model, and once prepared compacts nothing |
| `Quotas.RefusedRunCompactsExactlyWhen` | crates/agent/src/run.rs:241-281 | A refused run still compacts if and only if preparing it finds records being dropped |
| `Quotas.ARefusedRunCompacts` | crates/agent/src/agent.rs:289-290 | There is a run refused by its budget that a compaction was made for |
| `Approval.NextSound` | crates/approval/src/broker.rs:266-328 | Every atomic step, of any request, gate or the broker, keeps the protocol's invariant |
| `ApprovalAsking.TurnedAwayExactlyWhen` | crates/approval/src/broker.rs:268-287 | A request is turned away as cancelled if and only if the broker has closed or its caller has given up, and for want of a responder if and only if no gate is attached |
| `ApprovalAsking.AskedOnlyInTime` | crates/approval/src/broker.rs:239-293 | A request ends as timed out where it reads the clock if and only if no time is left; any other question asked is asked as of then, and gives up at the earlier of the deadline and the timeout |
| `ApprovalAsking.ParkedExactlyWhen` | crates/approval/src/broker.rs:213-237 | A question is parked, under a new identity, unless the broker has closed or the queue is full |
| `ApprovalAsking.WaitEndsInOrder` | crates/approval/src/broker.rs:314-327 | A wait ends in cancellation before the timer, and either before the answer; a channel closed without one is a refusal |
| `ApprovalAnswers.AnswersAreGiven` | crates/approval/src/broker.rs:266-328 | An answer is returned only if one gate's call sent it, to that request's own question, while the request was waiting, and no other answer to it was ever accepted |
| `ApprovalAnswers.SuccessWasSentToALiveRequest` | crates/approval/src/gate.rs:165-178 | Every success on record is one call's, made once, while the request held its receiver |
| `Approval.AtMostOneAnswer` | crates/approval/src/gate.rs:165-178 | Across all gates at most one answer to a question ever succeeds |
| `Approval.QueueStaysSound` | crates/approval/src/broker.rs:78-264 | The queue stays within its bound, is empty for ever once closed, counts exactly the live gates, and never again holds a question whose request has ended |
| `Approval.DetachNeverUnderflows` | crates/approval/src/gate.rs:89-105 | A live gate is counted, so dropping it never takes the counter below zero |
| `ApprovalAsking.GatesComeAndGo` | crates/approval/src/gate.rs:89-105 | In every run the count is of the gates there are: one that comes adds one, one that goes takes one away |
| `Approval.ChannelClosesOnlyWithTheBroker` | crates/approval/src/broker.rs:320-326 | A request sees its channel close only if the broker closed |
| `ApprovalAnswers.AcceptedAnswerIsReturnedExactlyWhen` | crates/approval/src/broker.rs:314-327 | An accepted answer is what its request returns if and only if the request was waiting as it was sent and its next step is a select that finds neither cancellation nor the timer ready; the opposite answer never is |
| `ApprovalAnswers.AcceptedThenCancelled` | crates/approval/src/broker.rs:314-327 | There is a run in which an approval is accepted and the request is cancelled |
| `ApprovalAnswers.AcceptedThenAbandoned` | crates/approval/src/broker.rs:250-264 | There is one in which the request is dropped by its caller, with no select at all |
| `ApprovalAnswers.AcceptedAfterTheTimer` | crates/approval/src/gate.rs:165-178 | There is one in which the timer wins first and the answer is accepted all the same |
| `ApprovalClosing.DrainedIsNeverAnswered` | crates/approval/src/broker.rs:166-187 | No answer to a question the close drains is ever accepted, before the close or after, and no request returns one |
| `ApprovalClosing.DrainedIsReleased` | crates/approval/src/broker.rs:172-187 | After the close every question it drained has lost its sender or can have it dropped, so none is left waiting for an answer nobody can give |
| `ApprovalClosing.AnswerableOnceClosedExactlyWhen` | crates/approval/src/broker.rs:166-187 | If the broker closes while a request waits with nothing sent to it yet, the run can go on to return an answer if and only if a gate's call had taken the question to answer it so |
| `ApprovalClosing.GrantedAfterTheClose` | crates/approval/src/broker.rs:169-171 | There is a run in which a request waiting as the broker closes is granted afterwards |
| `ApprovalQueue.Shared.Enqueue` | crates/approval/src/broker.rs:213-237 | A question is parked unless the broker is closed or the queue is full |
| `ApprovalQueue.Shared.Withdraw` | crates/approval/src/broker.rs:78-85 | A withdrawn question is gone and its waiter is returned |
| `ApprovalQueue.Shared.Close` | crates/approval/src/broker.rs:172-187 | Closing sets the flag and takes every waiter together |
| `ApprovalQueue.Shared.Attach` | crates/approval/src/gate.rs:101-105 | A new gate is counted, and nothing else changes |
| `ApprovalQueue.Shared.Detach` | crates/approval/src/gate.rs:95-99 | A dropped gate is no longer counted, and nothing else changes |
| `ApprovalQueue.Shared.Pending` | crates/approval/src/gate.rs:111-129 | The questions waiting, each once, oldest first |
| `StreamEvents.Reassembly.FoldIn` | crates/anthropic/src/stream.rs:192-306 | Folding one event in is the specified step of the reassembly machine |
| `StreamEvents.HandleAllJoin` | crates/anthropic/src/stream.rs:108-136 | Handling two stretches of events is handling the first and then the second, unless the first ended the stream |
| `StreamEvents.OthersDoNotInterfere` | crates/anthropic/src/stream.rs:202-280 | What a block assembles depends only on the events sent to its own index |
| `StreamEvents.PendingIsAssembled` | crates/anthropic/src/stream.rs:202-280 | Whatever is interleaved, the block held at an index is its latest opening with every fragment since, and never over the size limit |
| `StreamEvents.ClosingYieldsWhatWasAssembled` | crates/anthropic/src/stream.rs:274-329 | Closing yields the call parsed from exactly the fragments sent to its index, once, or the error of not parsing |
| `StreamEvents.HandleAllEndsAtFinal` | crates/anthropic/src/stream.rs:108-136 | A finished response or an error is the last item, and ends the stream |
| `StreamFailures.AnErrorEventEndsTheStream` | crates/anthropic/src/stream.rs:297-306 | A reported error is the last item, with the kind and words it came with |
| `StreamFailures.ABareErrorEndsTheStream` | crates/anthropic/src/protocol.rs:437-452 | An error event that says nothing is reported as an error all the same |
| `StreamFailures.ABlockEventNeedsAnIndex` | crates/anthropic/src/stream.rs:331-336 | An event about a block that does not say which, in 64 bits, ends the stream |
| `StreamFailures.ACallOpensWithItsIdAndName` | crates/anthropic/src/stream.rs:202-226 | A call opens with its id and name and no arguments, or ends the stream |
| `StreamFailures.AnUnknownEventSaysNothing` | crates/anthropic/src/stream.rs:297-306 | An event of any other kind, or of none, changes nothing and yields nothing |
| `StreamFailures.ALineThatIsNotJsonEndsTheStream` | crates/anthropic/src/stream.rs:108-115 | Data that is not JSON is the last item |
| `StreamFailures.LengthIsInBytes` | crates/anthropic/src/stream.rs:252-272 | Arguments are measured in the bytes of section 3 of RFC 3629 |
| `StreamFailures.AFragmentGoesToItsBlock` | crates/anthropic/src/stream.rs:252-272 | A fragment goes to the end of its block's arguments up to four mebibytes, and ends the stream past that or with no such block |
| `StreamFailures.PrintedArgumentsAreParsed` | crates/anthropic/src/stream.rs:309-329 | Arguments with anything printed in them are parsed as they stand, or end the stream |
| `StreamFailures.BlankArgumentsAreEmpty` | crates/anthropic/src/stream.rs:309-329 | Blank arguments are an empty object |
| `SseFraming.EventDataReadsWhatFollows` | crates/anthropic/src/stream.rs:183-189 | A data line reads as its payload, with or without the one space |
| `SseFraming.FrameLosesNothing` | crates/anthropic/src/stream.rs:101-106 | The lines, each with its newline, and the rest, are the bytes, and none holds a newline |
| `SseFraming.FrameJoin` | crates/anthropic/src/stream.rs:101-158 | Framing more bytes changes no line already framed |
| `SseFraming.FrameUnframed` | crates/anthropic/src/stream.rs:101-106 | Framing written lines and a remainder gives them back, for any without newlines |
| `SseStandard.ReadsAsTheStandardExactlyWhen` | crates/anthropic/src/stream.rs:101-189 | On a stream with no byte order mark, lines ended by LF or CRLF and no data line without its colon, the payloads are those of sections 9.2.5 and 9.2.6 of the WHATWG HTML Standard if and only if no event has two data lines and none with one is left unended |
| `SseStandard.TwoDataLinesAreReadApart` | crates/anthropic/src/stream.rs:183-189 | Two data lines in one event are one payload to the standard and two to the decoder |
| `SseFraming.SseStream.TakeLine` | crates/anthropic/src/stream.rs:101-106 | The first line leaves the buffer, without its newline and one carriage return |
| `SseFraming.SseStream.HandleLine` | crates/anthropic/src/stream.rs:108-136 | One line is handled as the event it carries |
| `SseFraming.SseStream.Drain` | crates/anthropic/src/stream.rs:101-137 | Every complete line is handled in order, up to one that ends the stream |
| `SseFraming.SseStream.Run` | crates/anthropic/src/stream.rs:100-175 | The loop yields the specified items for every sequence of arrivals |
| `SseFraming.ChunkBoundariesDoNotMatter` | crates/anthropic/src/stream.rs:94-176 | When every line fits, the items depend only on the concatenated bytes |
| `SseFraming.CutsDoNotMatterExactlyWhen` | crates/anthropic/src/stream.rs:94-176 | Every cut yields what the bytes yield at once if and only if each line too long for the buffer that is reached is followed by nothing but the size error |
| `SseFraming.LongLinesDependOnTheChunks` | crates/anthropic/src/stream.rs:139-144 | An ignored line over the limit is skipped in one chunk and ends the stream in two |
| `SseFraming.SplitsOnlyCutShort` | crates/anthropic/src/stream.rs:94-176 | Whatever the lines and the cuts, the items are those of the bytes at once, or a prefix of them ended by the size limit |
| `SseFraming.NothingFollowsTheEnd` | crates/anthropic/src/stream.rs:94-176 | Nothing is yielded after a finished response or an error |
| `StreamFailures.CutOffStreamsDoNotFinish` | crates/anthropic/src/stream.rs:146-175 | An interruption is the last item, and a connection that closes ends the stream with no finished response |
| `StreamFailures.TheBufferHoldsFourMebibytes` | crates/anthropic/src/stream.rs:139-144 | What waits for its newline may fill four mebibytes and no more |
| `StreamAgreement.ReadResponseEvents` | crates/anthropic/src/stream.rs:192-306 | The JSON events of a streamed response say its openings, pieces and closings |
| `StreamAgreement.OnlyTheHeardMatters` | crates/anthropic/src/stream.rs:297-306 | Pings and unknown events change nothing, wherever they come |
| `StreamAgreement.CoalesceKeepsCalls` | crates/anthropic/src/protocol.rs:362-384 | Coalescing text keeps every call, in order |
| `StreamAgreement.FailsTheSameBothWays` | crates/anthropic/src/protocol.rs:392-420 | A block fails whole if and only if its opening fails streamed, with the same error |
| `StreamFailures.ABlockConverts` | crates/anthropic/src/protocol.rs:392-420 | A whole block converts by its kind, with what a missing text or input stands for, and any other is kept as it came |
| `FinishReasons.WholeFinishesAs` | crates/anthropic/src/protocol.rs:362-434 | A whole response finishes as its calls or else its stop reason say: cut short, calls, refused, and otherwise a stop |
| `FinishReasons.StreamFinishesAs` | crates/anthropic/src/stream.rs:66-71 | Whatever came before, a stream finishes as its last stop reason says, unless it has yielded a call |
| `StreamAgreement.WholeConverts` | crates/anthropic/src/protocol.rs:362-420 | A whole response converts to its blocks in order, with the finish reason its calls decide |
| `StreamAgreement.StreamingAgreesWithTheWhole` | crates/anthropic/src/stream.rs:192-329 | However text and arguments are cut and whatever pings come between, the streamed content coalesced is the whole content coalesced, with equal calls and finish reason and no error |
| `StreamInterleaving.InterleavedBlocksYieldTheirCalls` | crates/anthropic/src/stream.rs:202-280 | However the blocks' events are interleaved nothing fails, and the calls are the response's call blocks, each once, in the order they close |
| `StreamEndToEnd.StreamLinesSay` | crates/anthropic/src/stream.rs:183-189 | Event, data and blank lines say what the data says |
| `StreamEndToEnd.StreamedBytesReadAsTheWhole` | crates/anthropic/src/stream.rs:94-329 | A response written as server-sent events and cut anywhere reads as the response converted whole, when each line fits |
| `FinishReasons.StreamedBytesFinishAs` | crates/anthropic/src/stream.rs:94-176 | From the bytes, however cut, a response finishes as its stop reason and its calls say |
| `StreamEndToEnd.PrintedResponsesReadAsTheWhole` | crates/anthropic/src/stream.rs:94-329 | The same of a response whose inputs are streamed as printed, cut into fragments anywhere |
| `CivilDate.NextDayIsOneLater` | crates/cli/src/audit.rs:378-395 | The calendar's next day is valid and one day later |
| `CivilDate.DayNumberIsStrict` | crates/cli/src/audit.rs:378-395 | Later dates have larger day numbers, leap years and all |
| `CivilDate.YearOfEraIsRight` | crates/cli/src/audit.rs:380-386 | The division's corrections cancel: the year and the day of the year are the ones the day falls in, for every day of the era |
| `CivilDate.CivilFromDaysIsTheCalendar` | crates/cli/src/audit.rs:379-395 | A day count maps to the one valid date that many days after the epoch, the date reached by stepping a day at a time |
| `CivilDate.CivilFromDaysIsStrict` | crates/cli/src/audit.rs:379-395 | Later days have later dates |
| `CivilDate.EveryDateIsReached` | crates/cli/src/audit.rs:379-395 | Every date from the epoch on is the date of its own day number |
| `CivilDate.FormatReadsBack` | crates/cli/src/audit.rs:365-376 | For every timestamp the text reads back as its second, and has the twenty characters of the form of section 5.6 of RFC 3339 exactly when the year has four digits |
| `Backoff.DelayIsCapped` | crates/api/src/scheduler.rs:191-200 | A delay exists exactly for the allowed retries, and is the capped product even where the multiplication overflows |
| `Backoff.DelayNeverShrinks` | crates/api/src/scheduler.rs:191-200 | Later retries never wait less, and never more than the cap |
| `Backoff.DelayIsAsPromisedExactlyWhen` | crates/api/src/scheduler.rs:172-200 | The delay is the documented doubling for thirty-two retries, and past them if and only if the cap is within reach of the largest factor or there is no backoff |
| `Backoff.TheThirtyThirdRetryFallsShort` | crates/api/src/scheduler.rs:191-200 | The thirty-third retry of a one-nanosecond backoff waits a nanosecond less than is promised |

## Left out

- The database, blocking tasks, file modes and encoding: a table is a map or a set of keys, a write transaction is one step that commits or does nothing, and encoding is the identity, so a storage error or a corrupt record is not modelled beyond the missing-record check.
- JSON text: a codec says what parses to what, and an encoder is anything its decoder reads back.
- HTTP, headers, credentials and settings, and what builds a request around the converted messages.
- Error messages: an error is its kind and the values that matter, not its wording.
- Models, tools, context stores, compactors and policies: each is an arbitrary answer that meets its contract (a model speaks as the assistant, a compactor's recap is plain text), so the transcript property is about the append log and not about a compacted or budgeted window.
- Store append failures during a run, and a consumer that drops the stream of updates half way: the code documents both as unrecoverable, and the model assumes neither.
- Two runs at once in one session: a session's runs are taken one after another.
- Request estimates, measurement events, tracing and latency: observation only.
- Identifiers: a random approval id is a number never used again, and a correlation id is any number.
- When a timer fires: a wait finds it elapsed or not, at any step. How long a question is good for is its expiry.
- The notification broadcast of the approval broker, and lock poisoning: the queue is what decides.
- Which of two ready subscriptions the sink's select takes: any order is allowed, so order is promised within an event type only.
- The quota ledger's windows, subjects and prices: one subject in one window is modelled, with a charge's cost given.
- Day counts before the epoch: a timestamp cannot be negative, and the model's day count is not.
- Terminal output, option parsing and the components that wire all this together.
- AgentDrivers.EveryRunEnds: for a run that fails the bound on compactions is `turns` + 2, which `AgentRounds.AFailedTurnMayCompactTwice` shows is reached.
- StreamInterleaving.InterleavedBlocksYieldTheirCalls: is about the calls; text from several blocks comes out in the order its events do.
- SseFraming.ChunkBoundariesDoNotMatter: is about arrivals that are all bytes; a cancellation, a deadline or a transport error comes between arrivals and ends the stream there, which `SseFraming.SseStream.Run` covers.
