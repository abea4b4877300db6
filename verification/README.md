# Verified model of the auditable-voting protocol engine

This project models the event-sourced engine of `auditable-voting-core` in Dafny and proves what it is for:
from relay events that arrive in any order, in any batches and more than once, every participant computes one
election state.

* **Public and ballot replay** (`Events`, `PublicState`, `BallotState`, `Reducer`). The reducers are classes whose
  methods update their fields as the Rust reducers do, each proved against a step function on the fields' value.
  `PublicClosedForm`, `BallotClosedForm` and `DerivedForms` then say what the folds compute in terms of the *set*
  of events, and `PublicTerms` and `BallotTerms` in terms of the events' own fields: which event each value shown is
  taken from, which ballots are accepted or turned away and why, and what the tally counts. `Convergence` is about the log over whole runs of the engine; `Redelivery`, `Repetition` and
  `Diagnostics` are about repeated deliveries: what they leave alike, exactly when they show in the state returned,
  and their counting.
* **Coordinator control plane** (`CoordinatorMessages`, `CoordinatorState`, `CoordinatorReplay`, `CoordinatorEngine`).
  `CoordinatorTerms` follows a message from what was asked for to the record it leaves, and `CoordinatorReports` says
  what a replay reports, how often and in which order. `CoordinatorBatch` and `CoordinatorDetails` give the closed form of one replayed batch on any record,
  `CoordinatorSplits` that of a list of batches, and `CoordinatorSplitRule` the exact rule for when two batches leave
  the record, and the whole state, that one batch does. `CoordinatorOpening` says which steps make an open round miss
  a member, `CoordinatorBacking` which make it miss a member's commit to the proposal shown; `CoordinatorSteps` lifts
  such a rule to sequences of envelopes. `CoordinatorRuns` is a step system of many replicas (create, publish, echo,
  deliver, save, restore, and foreign messages) with invariants of every run; `ReplicaAgreement` compares two replicas.
* **Resident lists** (`Csv`, `Residents`): the quote-and-comma scanner with its inverse, and the import built on it.

`Order` and `Sorting` hold the total order of sort keys, the stable sort (characterised as the only sorted sequence
that keeps the order within each key), first-occurrence retention and `BTreeMap` traversal.

Hypotheses are stated where a result needs them. `KeysIdentify`: events with one sort key (rank, epoch, creation
time, id) are one event; that permuted lists derive alike is proved under it. `OneLeast`, which follows from it: no two different
events are least for one id; the log depends only on the set delivered if and only if this holds. `IdsIdentify`: events
with one id are one event, as a Nostr event id is the hash of its event ("Events and signatures" in NIP-01).
`Faithful`: decoding inverts encoding, for messages and local echoes. Success, snapshot and conservation results need
none of them.

Facts of the code the model keeps: `apply_events` appends before it checks the election, so a failed call leaves the
offending events in the log; the state returned by a call is derived before de-duplication, `current_state` after it;
a closed round without a result takes no ballots, earlier ones included; committers are not checked against the
roster and commits survive a new proposal; an envelope of another election is reported as applied but not recorded.

## Model

| member | source | states |
|---|---|---|
| Order.KeyOrderIsTotal | auditable-voting-core/src/reducer.rs:150-166 | the four-part key order is reflexive, total, antisymmetric and transitive |
| Order.KeysCompared | auditable-voting-core/src/reducer.rs:150-166 | and this is how it runs: the lower rank first, then the lower epoch, then the earlier time, then the lower id |
| Order.StringsByCodePoint | auditable-voting-core/src/reducer.rs:165 | a string is less than another when it is a proper prefix or smaller at the first difference |
| Events.CompareIsTotalPreorder | auditable-voting-core/src/reducer.rs:121-166 | `compare_protocol_events` puts the lower stage first, then the lower epoch, the earlier time, the lower id; it is a total preorder that ties exactly on equal keys, so only on equal ids |
| Events.StageTable | auditable-voting-core/src/reducer.rs:101-148 | which kinds of event stand at each of the ten stages |
| Events.SortedByOwnFields | auditable-voting-core/src/event.rs:115-262 | creation time, id and epoch sorted by are those of the event's own record |
| Events.OfOwnElection | auditable-voting-core/src/event.rs:139-262 | and the election is the one it names |
| Sorting.StableSortUnique | auditable-voting-core/src/reducer.rs:177 | a sorted sequence is fixed by the order within each key, so any stable sort gives the model's |
| Sorting.SortStable | auditable-voting-core/src/reducer.rs:177 | the sort keeps the order of events with equal keys |
| PublicState.PublicStateReducer.Apply | auditable-voting-core/src/public_state.rs:80-90 | each public event changes the reducer's fields by the step function |
| PublicState.PublicStateReducer.ApplyRoundDefinition | auditable-voting-core/src/public_state.rs:96-119 | a definition creates the round or rewrites its settings, keeping the earliest definition time |
| PublicState.PublicStateReducer.ApplyRoundOpen | auditable-voting-core/src/public_state.rs:121-160 | an open creates or opens the round, with the contradiction issue and early return when it was closed |
| PublicState.PublicStateReducer.ApplyRoundClose | auditable-voting-core/src/public_state.rs:162-173 | a close sets phase and earliest closing time, or leaves an unknown-round issue |
| PublicState.PublicStateReducer.ApplyBallotReceipt | auditable-voting-core/src/public_state.rs:175-191 | a receipt is listed with its round, or leaves an unknown-round issue |
| PublicState.PublicStateReducer.ApplyFinalResult | auditable-voting-core/src/public_state.rs:193-210 | a result publishes its round, with its own counts, hash, id and time, or leaves an unknown-round issue |
| PublicState.PublicStateReducer.ApplyDispute | auditable-voting-core/src/public_state.rs:212-225 | a dispute marks its round and lists the reason, or leaves an unknown-round issue |
| PublicState.PublicStateReducer.Finish | auditable-voting-core/src/public_state.rs:227-243 | the final list holds each filed round once and nothing else, strictly by anchor descending then id |
| PublicState.ListedOnce | auditable-voting-core/src/public_state.rs:227-243 | there is only one such list: whatever sorts the rounds so gives the model's |
| PublicState.FinalizeLists | auditable-voting-core/src/public_state.rs:227-243 | looking a round up in the final list finds exactly what the reducer filed under that id |
| PublicClosedForm.RoundPhase | auditable-voting-core/src/public_state.rs:96-225 | on sorted events, phase and opening and closing times of every round are those of the set of events |
| PublicClosedForm.RoundSettings | auditable-voting-core/src/public_state.rs:96-160 | on sorted events, each setting is the write of the greatest writer, or its default; PublicTerms says from which fields |
| PublicClosedForm.IssuesAreStrays | auditable-voting-core/src/public_state.rs:136-145 | on sorted events the issues are those of events naming no finally known round: no open is found after a close |
| DerivedForms.RoundPhase | auditable-voting-core/src/public_state.rs:96-225 | a round is known iff a definition or open names it; its phase is Disputed, Published, Closed, Open or Draft by which events of the set name it |
| DerivedForms.RoundTimes | auditable-voting-core/src/public_state.rs:96-173 | opened_at and closed_at are the minima over opens and closes, defined_at over definitions (opens if none) |
| DerivedForms.RoundSettings | auditable-voting-core/src/public_state.rs:121-160 | prompt, thresholds, roster and final result are the writes of greatest key, or the defaults; PublicTerms says from which fields |
| DerivedForms.RoundLists | auditable-voting-core/src/public_state.rs:175-225 | receipts and disputes are listed with their round in replay order |
| DerivedForms.ElectionTitle | auditable-voting-core/src/public_state.rs:92-94 | the title is that of the greatest election definition |
| DerivedForms.RoundsInOrder | auditable-voting-core/src/public_state.rs:227-243 | each known round is listed once, strictly by anchor descending, then id |
| DerivedForms.OnlyStrayIssues | auditable-voting-core/src/public_state.rs:136-145 | for every list of events the issues are exactly the strays in replay order; ContradictoryRoundState never occurs |
| PublicTerms.PhaseByEvents | auditable-voting-core/src/public_state.rs:96-225 | a round is listed iff defined or opened; Disputed, Published, Closed, Open or Draft say which kinds of event name it |
| PublicTerms.TimesByEvents | auditable-voting-core/src/public_state.rs:121-173 | opened_at and closed_at are the least creation times of its opens and closes, absent iff there are none |
| PublicTerms.DefinedByEvents | auditable-voting-core/src/public_state.rs:96-119 | defined_at is the least creation time of its definitions, of its opens if there are none |
| PublicTerms.PromptByEvents | auditable-voting-core/src/public_state.rs:96-160 | the prompt is that of the last open to give one, else of the last definition, else empty |
| PublicTerms.ThresholdTByEvents | auditable-voting-core/src/public_state.rs:96-160 | the same of threshold_t, else 1 |
| PublicTerms.ThresholdNByEvents | auditable-voting-core/src/public_state.rs:96-160 | the same of threshold_n, else the size of the first open's roster, at least 1, cut to 32 bits |
| PublicTerms.RosterByEvents | auditable-voting-core/src/public_state.rs:96-160 | the same of the roster, else empty |
| PublicTerms.ResultByEvents | auditable-voting-core/src/public_state.rs:193-210 | a published result has the yes and no counts, hash, id and time of the last result event of the round; there is none iff there is no such event |
| PublicTerms.ReceiptsByEvents | auditable-voting-core/src/public_state.rs:175-191 | a round lists its receipt events in order of time, each with its own fields |
| PublicTerms.DisputesByEvents | auditable-voting-core/src/public_state.rs:212-225 | and the reasons of its dispute events |
| PublicTerms.NewestFirst | auditable-voting-core/src/public_state.rs:227-243 | rounds are listed from the latest opening (else closing, else definition) time to the earliest, equal times by id |
| PublicTerms.IssuesByEvents | auditable-voting-core/src/public_state.rs:162-225 | each event naming no listed round leaves an issue with its id and words, in replay order, and there is no other |
| PublicTerms.OpenAfterClose | auditable-voting-core/src/public_state.rs:136-146 | were an open to meet a closed round, it would leave a contradiction issue, and change the round only if created before the close |
| PublicTerms.TitleByEvents | auditable-voting-core/src/public_state.rs:92-94 | the title is that of the last election definition, absent iff there is none |
| PublicTerms.OfOneElection | auditable-voting-core/src/reducer.rs:168-176 | derivation fails exactly when an event is of another election, and otherwise names its own |
| BallotState.BallotStateReducer.ApplyEncryptedBallot | auditable-voting-core/src/ballot_state.rs:72-240 | the nine checks in order, each with its rejection, and acceptance |
| BallotState.BallotStateReducer.Finish | auditable-voting-core/src/ballot_state.rs:242-291 | the summary loops give each round named the numbers of accepted ballots, of those that chose Yes and No, and of rejections, and one receipt per accepted ballot |
| BallotClosedForm.FirstValidWins | auditable-voting-core/src/ballot_state.rs:212-239 | over sorted ballots the accepted list and the token set are those of the winners, the valid ballots of least key; BallotTerms says by time |
| DerivedForms.PassesIff | auditable-voting-core/src/ballot_state.rs:89-210 | which ballots pass the checks, said of the set of public events: undisputed round, result or open without close, before every close, choice, token and roster shares |
| BallotTerms.EarliestAccepted | auditable-voting-core/src/ballot_state.rs:212-239 | a record is accepted iff it is, field by field, that of the earliest valid ballot of its token, by creation time and then id, across all rounds |
| BallotTerms.OthersAreLater | auditable-voting-core/src/ballot_state.rs:212-239 | any other valid ballot of an accepted token was created later, or at the same time with a greater id |
| BallotTerms.AcceptedInTime | auditable-voting-core/src/ballot_state.rs:212-239 | the accepted list runs from the earliest ballot to the latest, equal times by id |
| BallotTerms.OthersTurnedAway | auditable-voting-core/src/ballot_state.rs:72-226 | every other ballot is rejected, on grounds that there are |
| BallotTerms.RejectedOnGrounds | auditable-voting-core/src/ballot_state.rs:72-226 | and every rejection reports, with its own fields and in the words of its code, a ballot cast on which those grounds hold: each code when the checks before it pass and its own does not, DuplicateToken when an earlier valid ballot has the token, DuplicateEvent when it was delivered again |
| BallotTerms.RejectedInTime | auditable-voting-core/src/ballot_state.rs:72-226 | rejections are listed in replay order |
| BallotTerms.ReceiptsByBallot | auditable-voting-core/src/ballot_state.rs:262-268 | each receipt carries the fields of the ballot accepted at its place |
| BallotTerms.OnlyEarlierTakesOver | auditable-voting-core/src/ballot_state.rs:212-239 | with public events fixed, more ballots keep every accepted token, and a winner yields only to an earlier ballot among those added |
| DerivedForms.AcceptedTokens | auditable-voting-core/src/ballot_state.rs:212-239 | a token is accepted iff some passing ballot spends it |
| DerivedForms.AcceptedDistinct | auditable-voting-core/src/ballot_state.rs:212-239 | accepted tokens are pairwise distinct, and so are accepted event ids |
| DerivedForms.ReceiptsMatch | auditable-voting-core/src/ballot_state.rs:262-268 | receipts match accepted ballots one for one, in order |
| DerivedForms.DeliveriesConserved | auditable-voting-core/src/ballot_state.rs:72-240 | each event id has exactly as many accepted and rejected records as ballot deliveries, at most one of them accepted |
| DerivedForms.SummariesCoverRounds | auditable-voting-core/src/ballot_state.rs:242-290 | the summaries name exactly the rounds ballots name |
| DerivedForms.SummariesInOrder | auditable-voting-core/src/ballot_state.rs:242-290 | the summaries are in ascending order of round id, each once |
| DerivedForms.SummariesInBalance | auditable-voting-core/src/ballot_state.rs:246-282 | per round yes + no = accepted and accepted + rejected = deliveries |
| BallotTerms.CountedByChoice | auditable-voting-core/src/ballot_state.rs:246-282 | the yes count is the number of accepted ballots of the round that chose Yes, the no count of those that chose No |
| BallotTerms.ResultOfTokens | auditable-voting-core/src/ballot_state.rs:212-282 | said of the deliveries: the numbers of tokens whose earliest valid ballot is of the round and chose Yes, or No |
| DerivedForms.AcceptedQuorumsMeet | auditable-voting-core/src/ballot_state.rs:171-210 | the delivered ballots behind two records accepted in one round share at least 2t - n coordinators, and t <= n |
| Reducer.DeriveState | auditable-voting-core/src/reducer.rs:168-206 | the loops compute the derivation function, or fail when any event is of another election |
| Reducer.DedupeByEventId | auditable-voting-core/src/reducer.rs:96-99 | keeps the first event of each id |
| Reducer.AuditableVotingProtocolEngine.ReplayAll | auditable-voting-core/src/reducer.rs:51-54 | replaces the log and derives; on success the log is sorted and de-duplicated |
| Reducer.AuditableVotingProtocolEngine.ApplyEvents | auditable-voting-core/src/reducer.rs:56-59 | appends, then derives; a failure leaves the appended events in the log |
| Reducer.AuditableVotingProtocolEngine.Rederive | auditable-voting-core/src/reducer.rs:88-93 | the result is derived before the log is sorted and de-duplicated |
| Reducer.AuditableVotingProtocolEngine.Restore | auditable-voting-core/src/reducer.rs:37-49 | restores election and log exactly when the snapshot version matches |
| Reducer.AuditableVotingProtocolEngine.Snapshot | auditable-voting-core/src/reducer.rs:61-68 | captures the log with its current state, or the derivation error |
| Reducer.PlanesSortApart | auditable-voting-core/src/reducer.rs:177-195 | sorting the whole list sorts each plane as if it were alone |
| Reducer.InterleavingIrrelevant | auditable-voting-core/src/reducer.rs:168-205 | interleaving of the planes is irrelevant and coordinator events matter only by number |
| Reducer.CoordinatorsCounted | auditable-voting-core/src/reducer.rs:200-204 | the count is of the places at which a coordinator event stands |
| Reducer.DeriveIgnoresOrder | auditable-voting-core/src/reducer.rs:168-206 | when keys identify events every permutation of the input derives the same result |
| Convergence.LogIsCanonical | auditable-voting-core/src/reducer.rs:88-99 | the log of a success is strictly sorted, repeats no id, and holds a least delivered event for every id |
| Convergence.LogInTime | auditable-voting-core/src/reducer.rs:88-99 | it reads stage by stage, within a stage by epoch, then from the earliest event on, equal times by id |
| Convergence.LogMerges | auditable-voting-core/src/reducer.rs:56-99 | putting part of the deliveries in canonical form first leaves the same log |
| Convergence.LogOfSetIff | auditable-voting-core/src/reducer.rs:88-99 | the log depends only on the set delivered iff no two different events are least for one id |
| Convergence.FirstLeastStays | auditable-voting-core/src/reducer.rs:90-99 | of the events least for an id the log keeps the one delivered first |
| Convergence.KeysGiveOneLeast | auditable-voting-core/src/reducer.rs:150-166 | when keys identify events there is only one least event for each id |
| Convergence.Drive | auditable-voting-core/src/reducer.rs:29-94 | the engine object goes through the logs of the run function |
| Convergence.RunKeepsDeliveries | auditable-voting-core/src/reducer.rs:51-94 | over every run, failed calls included, the log stands for all deliveries and forgets no wrong election |
| Convergence.RunSucceedsWhenClean | auditable-voting-core/src/reducer.rs:51-94 | a call succeeds iff everything delivered since the last replay carries the engine's election, and then the log is canonical |
| Convergence.EnginesConverge | auditable-voting-core/src/reducer.rs:56-99 | every engine given the same set of events, in any order, batching and repetition, holds the same log, iff no two different events are least for one id |
| Convergence.CompareEngines | auditable-voting-core/src/reducer.rs:56-99 | and, run as objects, give identical current states: the one derived from the canonical log |
| Convergence.SnapshotPlusSuffixLog | auditable-voting-core/src/reducer.rs:37-72 | restore and suffix succeed when the full replay does and leave the same log, for any prefix |
| Convergence.SnapshotPlusSuffixResult | auditable-voting-core/src/reducer.rs:37-72 | for a prefix of distinct ids the returned result itself is that of the full replay |
| DerivedForms.DeriveByPlanes | auditable-voting-core/src/reducer.rs:168-206 | for events of one election the derivation is the public state, the ballot state and the coordinator count, plane by plane; the DerivedForms and Redelivery rows speak of these |
| Redelivery.PublicRepeats | auditable-voting-core/src/public_state.rs:96-225 | folding sorted events once each gives the same rounds but for receipts and disputes |
| Redelivery.RoundsSurviveRedelivery | auditable-voting-core/src/reducer.rs:168-206 | the list with repeats and its log derive the same title and the same rounds, receipts and disputes aside |
| Redelivery.RepeatsListAgain | auditable-voting-core/src/reducer.rs:168-206 | receipts, disputes and issues of the one are those of all sorted deliveries, of the other those of the first delivery of each id, for the same known rounds |
| Redelivery.BallotsSurviveRedelivery | auditable-voting-core/src/reducer.rs:168-206 | they derive the same accepted ballots and receipts, and rejections differing only by DuplicateEvent entries, counted exactly |
| Redelivery.SummariesSurviveRedelivery | auditable-voting-core/src/ballot_state.rs:242-290 | their summaries are of the same rounds with the same accepted, yes and no counts; rejected counts differ by the deliveries dropped in the round |
| Redelivery.CoordinatorsSurviveRedelivery | auditable-voting-core/src/reducer.rs:195-205 | the one counts every delivery of a coordinator event, the other every id of one |
| Repetition.RepeatsShowIff | auditable-voting-core/src/reducer.rs:168-206 | delivering some of a list's events again leaves the derived state alike iff none of them leaves a trace each time: coordinator events, ballots, receipts, disputes, and closes and results of unknown rounds do |
| Repetition.SnapshotResultIff | auditable-voting-core/src/reducer.rs:37-72 | restore and suffix return the very result of the full replay iff both fail or the prefix delivered no trace-leaving event twice |
| Repetition.ReturnedIsCurrentIff | auditable-voting-core/src/reducer.rs:70-94 | the state a replay returns is the state asked for afterwards iff it was given no trace-leaving event twice |
| Repetition.RepeatIsCounted | auditable-voting-core/src/reducer.rs:195-205 | an input where the two differ: one coordinator event delivered twice |
| Repetition.RestoreAndApply | auditable-voting-core/src/reducer.rs:37-72 | snapshot, restore and apply through the engine objects: the log of the full replay, and its result under exactly those conditions |
| Diagnostics.BuildReplayStatus | auditable-voting-core/src/diagnostics.rs:34-49 | total = unique + duplicate deliveries, unique being the number of ids |
| Diagnostics.CountIssues | auditable-voting-core/src/diagnostics.rs:56-62 | each code is counted as often as it occurs |
| Diagnostics.CodesCounted | auditable-voting-core/src/diagnostics.rs:56-62 | the codes counted are those of the public issues and of the rejections |
| Diagnostics.BuildProtocolDiagnostics | auditable-voting-core/src/diagnostics.rs:51-84 | every code that occurs among issues and rejections is listed once, in the codes' order, with the number of times it does; the known ids are those of the rounds, ascending |
| Diagnostics.CleanLogDiagnostics | auditable-voting-core/src/diagnostics.rs:34-62 | on the log of a success there is no duplicate and no DuplicateEvent rejection |
| CoordinatorState.RosterNormalForm | auditable-voting-core/src/coordinator_state.rs:180-189 | a normalised roster is its non-blank names, each once, ascending |
| CoordinatorState.WhitespaceCharacters | auditable-voting-core/src/coordinator_state.rs:180-189 | a name is blank when it has only these 25 characters, which `str::trim` strips |
| CoordinatorState.RostersAlike | auditable-voting-core/src/coordinator_state.rs:180-189 | rosters naming the same coordinators normalise alike |
| CoordinatorState.CoordinatorControlState.ApplyEnvelope | auditable-voting-core/src/coordinator_state.rs:128-177 | applying an envelope changes the fields by the step function |
| CoordinatorState.ApplyRoundOpenCommit | auditable-voting-core/src/coordinator_state.rs:215-238 | a commit to the record's proposal files its sender and opens the round at as many as the roster (or one); any other commit changes nothing |
| CoordinatorState.ApplyPartialTally | auditable-voting-core/src/coordinator_state.rs:251-278 | a tally replaces its sender's earlier one; the round is tallied at as many senders as the roster (or one) |
| CoordinatorState.ApplyResultPublishApproval | auditable-voting-core/src/coordinator_state.rs:280-305 | an approval replaces its sender's earlier one; the round is published at as many senders as the roster (or one) |
| CoordinatorTerms.AppliedOnce | auditable-voting-core/src/coordinator_state.rs:128-177 | an envelope takes effect iff its id was not processed and it is of the election; then the id is processed, the clock is the maximum, and only its own round changes |
| CoordinatorTerms.SettingApplied | auditable-voting-core/src/coordinator_state.rs:191-213 | a draft and a proposal rewrite prompt, thresholds and roster with their own; a proposal also sets phase and proposal id |
| CoordinatorTerms.CommitApplied | auditable-voting-core/src/coordinator_state.rs:215-238 | a commit changes the record only if it is to the proposal on file; Open at as many commits as the roster |
| CoordinatorTerms.TallyApplied | auditable-voting-core/src/coordinator_state.rs:251-278 | a tally is filed under its sender with its own counts, ids and time; Tallied at as many as the roster |
| CoordinatorTerms.ApprovalApplied | auditable-voting-core/src/coordinator_state.rs:280-305 | an approval likewise; Published at as many as the roster |
| CoordinatorTerms.NoticeApplied | auditable-voting-core/src/coordinator_state.rs:240-317 | a notice of some ballots is listed, a checkpoint replaces the last, a dispute sets reason and phase |
| CoordinatorState.CoordinatorControlState.LatestRound | auditable-voting-core/src/coordinator_state.rs:119-126 | finds the round of greatest last transition, ties to the greater id |
| CoordinatorReplay.CompareIsTotalPreorder | auditable-voting-core/src/order.rs:25-34 | `compare_coordinator_events` puts the lower stage first, then the lower epoch, the earlier time, the lower id; it is a total preorder that ties only on equal ids and types |
| CoordinatorReplay.StageTable | auditable-voting-core/src/order.rs:12-23 | which message stands at each of the eight stages |
| CoordinatorReplay.DecodesIff | auditable-voting-core/src/replay.rs:12-24 | a batch decodes iff all that others sent does, and then to just that, in arrival order |
| CoordinatorReplay.FirstFailureIsReported | auditable-voting-core/src/replay.rs:12-24 | otherwise the error is that of the first that does not |
| CoordinatorReplay.DecodeBatch | auditable-voting-core/src/replay.rs:12-24 | skips what the replica itself sent, decodes the rest, and fails on the first failure |
| CoordinatorReplay.ReplayTransportEvents | auditable-voting-core/src/replay.rs:7-44 | the loop leaves the state and reports the events of the replay functions, which CoordinatorBatch and CoordinatorReports describe; a failed batch changes nothing |
| CoordinatorReports.ReportedInTurn | auditable-voting-core/src/replay.rs:29-41 | the events reported are, in replay order and each with its own type, round and time, those whose id was neither processed before nor that of an earlier event of this election |
| CoordinatorReports.ReportsOfBatch | auditable-voting-core/src/replay.rs:12-41 | an id processed before is never reported, one of this election exactly once if delivered, one of another as often as delivered |
| CoordinatorReports.ReportsInOrder | auditable-voting-core/src/replay.rs:26-41 | of two reports the first stands for the event that compares as less |
| CoordinatorReports.NothingReportedIff | auditable-voting-core/src/replay.rs:12-41 | a batch reports nothing iff it decodes and everything in it was processed before |
| CoordinatorEngine.CoordinatorControlEngine.CreateOutbound | auditable-voting-core/src/coordinator_engine.rs:507-537 | the message carries the round, time, type and election asked for, under the clock plus one, saturating, and so does the envelope in it; a failure to encode is returned |
| CoordinatorEngine.CoordinatorControlEngine.ProposeRoundOpen | auditable-voting-core/src/coordinator_engine.rs:387-403 | the same of a proposal for the round asked for, whose roster is in normal form |
| CoordinatorEngine.CoordinatorControlEngine.ReplayTransportMessages | auditable-voting-core/src/coordinator_engine.rs:324-334 | replays a batch and clears the restored flag iff something in it had not been processed |
| CoordinatorEngine.CoordinatorControlEngine.ApplyPublishedLocalMessage | auditable-voting-core/src/coordinator_engine.rs:343-367 | applies and reports the local echo and clears the restored flag; nothing changes if the id was processed or the echo cannot be read |
| CoordinatorTerms.CreateAndApply | auditable-voting-core/src/coordinator_engine.rs:336-403 | a message made for a round, published and echoed, leaves the round on file with its time, a proposal also with its prompt, thresholds, roster and phase OpenProposed |
| CoordinatorTerms.DeliveredFiles | auditable-voting-core/src/replay.rs:12-41 | delivered alone to another coordinator of the election, it is applied and reported once |
| CoordinatorEngine.CoordinatorControlEngine.Restore | auditable-voting-core/src/coordinator_engine.rs:157-163 | takes over the snapshot's state and group engine and marks the engine restored |
| CoordinatorEngine.SaveAndRestore | auditable-voting-core/src/coordinator_engine.rs:157-171 | restoring what an engine saved gives an engine of the same configuration, state and group engine |
| CoordinatorEngine.CoordinatorControlEngine.ViewRounds | auditable-voting-core/src/coordinator_engine.rs:260-293 | one view for each round, strictly ascending by id when records are filed under their ids: committers and senders are the keys filed, ascending, and the missing are the roster members without a commit |
| CoordinatorEngine.MissingNames | auditable-voting-core/src/coordinator_engine.rs:271-276 | the missing committers shown are the roster members without a commit |
| CoordinatorEngine.MissingNameByName | auditable-voting-core/src/coordinator_engine.rs:271-276 | in roster order |
| CoordinatorBatch.OnlyEffectiveMatters | auditable-voting-core/src/replay.rs:26-41 | only first deliveries of this election's unprocessed ids affect the state |
| CoordinatorBatch.ArrivalOrderIrrelevant | auditable-voting-core/src/replay.rs:12-41 | the state after a batch depends only on the set of deliveries in it |
| CoordinatorBatch.RecordClosedForm | auditable-voting-core/src/coordinator_state.rs:191-317 | sorted transitions take any record to the closed form of roster, proposal, committers, senders and phase |
| CoordinatorBatch.SingleBatch | auditable-voting-core/src/replay.rs:26-41 | one batch takes any round, known or new, to exactly the closed form of the deliveries that count, in any arrival order |
| CoordinatorBatch.FreshRound | auditable-voting-core/src/coordinator_state.rs:191-317 | for a new round that is: disputed if any dispute, else published, tallied or open by the number of approvers, talliers or committers to the last proposal, else proposed or draft |
| CoordinatorDetails.BatchDetails | auditable-voting-core/src/coordinator_state.rs:191-317 | and the rest of the record: settings of the last proposal or else draft, notices in order, last checkpoint and reason, and per sender the last tally, approval and commit that counted |
| CoordinatorBatch.LatestIsGreatest | auditable-voting-core/src/order.rs:25-38 | the proposal or draft the closed form calls last is the one with the greatest key |
| CoordinatorSplits.BatchesClosedForm | auditable-voting-core/src/replay.rs:26-41 | over any list of batches the closed forms compose |
| CoordinatorSplits.WhoCommits | auditable-voting-core/src/coordinator_state.rs:215-228 | over any list of batches a sender becomes a committer iff in some batch it commits to the proposal standing after that batch; any other commit is lost |
| CoordinatorSplits.WhoTalliesAndApproves | auditable-voting-core/src/coordinator_state.rs:251-305 | tallies and approvals are never lost |
| CoordinatorSplits.SplitsAgreeOnMembers | auditable-voting-core/src/replay.rs:26-41 | any two batchings of one set of deliveries leave a round with the same talliers and approvers, and the same committers iff the same new senders commit to a standing proposal |
| CoordinatorSplitRule.SplitAgreesIff | auditable-voting-core/src/replay.rs:26-41 | one batch and two leave the same record of a round iff they agree in shape (the later batch has the last proposal and roster if any, no lost commit makes a difference, and it decides the phase or the earlier decides alike), in details (last settings, draft, checkpoint, reason and event of the later batch are the whole batch's or write alike, notices keep their order) and in entries (each sender's last tally, approval and counted commit) |
| CoordinatorSplitRule.SplitStatesIff | auditable-voting-core/src/replay.rs:26-41 | they leave the same whole state iff they agree about every round and the roster shown; clock and processed ids are always alike |
| CoordinatorSplitRule.SplitDeliveriesIff | auditable-voting-core/src/replay.rs:12-41 | the same of transport batches that decode |
| CoordinatorSplits.SplitOverwritesSettings | auditable-voting-core/src/coordinator_state.rs:191-213 | an input where they do not: a draft replayed after its proposal's batch overwrites prompt and thresholds |
| CoordinatorSplits.SplitAlongOrder | auditable-voting-core/src/replay.rs:26-41 | splitting along the replay order leaves the whole state alike |
| CoordinatorSplits.SplitAgainstOrderDiverges | auditable-voting-core/src/coordinator_state.rs:215-223 | an input where it does not: a commit replayed before its proposal is lost |
| CoordinatorOpening.UnanimousStep | auditable-voting-core/src/coordinator_state.rs:191-238 | compliant transitions keep: only members commit, and an open round has all of them |
| CoordinatorOpening.OpenViewIsComplete | auditable-voting-core/src/coordinator_engine.rs:260-292 | of such an open round the view shows the whole roster as committers and nobody missing |
| CoordinatorOpening.UnanimityLostIff | auditable-voting-core/src/coordinator_state.rs:191-317 | with any transition of any record, its roster in normal form or empty, an open round comes to miss a member exactly when a commit to the current proposal leaves members missing and no fewer outsiders, or a draft gives an open round a roster not all of which has committed |
| CoordinatorOpening.GoodThroughoutIff | auditable-voting-core/src/coordinator_state.rs:191-317 | over any sequence of envelopes an open round never misses a member iff no envelope taking effect is such a step |
| CoordinatorOpening.OutsiderOpens | auditable-voting-core/src/coordinator_state.rs:221-237 | an input that breaks it: an outsider's commit opens a round a member has not committed to |
| CoordinatorOpening.DraftAfterOpen | auditable-voting-core/src/coordinator_state.rs:191-200 | another: a draft adds a member to the roster of an open round, which stays open |
| CoordinatorBacking.BackingLostIff | auditable-voting-core/src/coordinator_state.rs:191-317 | with any transition of any record, "open means every member committed to the proposal shown" is lost exactly when a commit to it makes up the quorum with others, stale commits included, while another member has not committed to it, or a draft gives an open round a roster not all of which has |
| CoordinatorBacking.BackedThroughoutIff | auditable-voting-core/src/coordinator_state.rs:191-317 | over any sequence of envelopes that meaning is kept iff none taking effect is such a step |
| CoordinatorBacking.BackedMissesNobody | auditable-voting-core/src/coordinator_engine.rs:271-276 | and a round of that meaning misses nobody |
| CoordinatorBacking.OldCommitsCount | auditable-voting-core/src/coordinator_state.rs:202-237 | an input that breaks it: one member's commit to a second proposal reopens the round, the other's filed commit being to the first |
| CoordinatorBacking.StaleIsNoBacking | auditable-voting-core/src/coordinator_state.rs:215-237 | whatever log holds that commit, the round left is open without the other member's commit to the proposal shown |
| CoordinatorRuns.OpeningIsUnanimous | auditable-voting-core/src/coordinator_state.rs:202-238 | over every run and batching, if the election's messages for a round carry one roster and only members commit, Open means the view lists exactly the roster and misses nobody |
| CoordinatorRuns.UnanimousRunIff | auditable-voting-core/src/coordinator_state.rs:191-317 | in any run of any replicas, all stay unanimous from envelope to envelope iff none has met a step that breaks it |
| CoordinatorRuns.OpenMissesNobody | auditable-voting-core/src/coordinator_engine.rs:271-276 | until then no view of an open round lists anyone as missing |
| CoordinatorRuns.BackedRunIff | auditable-voting-core/src/coordinator_state.rs:191-317 | in any run of any replicas, open means committed to the proposal shown at every replica, from envelope to envelope, iff none has met a step that breaks it |
| CoordinatorRuns.OpenIsMeant | auditable-voting-core/src/coordinator_state.rs:215-237 | until then every roster member of an open round has published a commit to the proposal the round shows |
| CoordinatorRuns.RunKeptIff | auditable-voting-core/src/replay.rs:26-41 | any property of states decided step by step holds at all replicas, from envelope to envelope of a run, iff no replica meets a step that breaks it |
| CoordinatorRuns.RecordsFiled | auditable-voting-core/src/coordinator_state.rs:137-143 | in every run each record is filed under its own round id |
| CoordinatorRuns.ViewsInOrder | auditable-voting-core/src/coordinator_engine.rs:260-293 | so every list of views the engine shows has each round once, strictly ascending by id |
| CoordinatorRuns.CommittersMeantThis | auditable-voting-core/src/coordinator_state.rs:202-238 | over every run with one proposal for the round, every committer shown has published a commit to the proposal shown |
| CoordinatorRuns.ClockHolds | auditable-voting-core/src/coordinator_engine.rs:507-521 | in every run the clock is the greatest epoch processed and each message's epoch passes its causes' |
| CoordinatorRuns.EveryPublicationAsked | auditable-voting-core/src/coordinator_engine.rs:507-537 | in every run each published message was asked for of some replica, with this round, time and content, or injected under that id |
| CoordinatorRuns.CauseHasSmallerEpoch | auditable-voting-core/src/coordinator_engine.rs:513 | a message processed before another was created has the smaller epoch iff it is not saturated |
| CoordinatorRuns.CausesSortFirst | auditable-voting-core/src/order.rs:25-34 | along any causal chain epochs rise, so no effect sorts before a cause of its own event type |
| ReplicaAgreement.Process | auditable-voting-core/src/coordinator_engine.rs:324-367 | the engine object goes through the states of the delivery function |
| ReplicaAgreement.DeliveryApplies | auditable-voting-core/src/coordinator_engine.rs:336-367 | an own echo and a single transport event both apply the message once |
| ReplicaAgreement.ComingBackDoesNothing | auditable-voting-core/src/replay.rs:12-19 | a transport event marked with the replica's own key changes nothing, whatever is in it |
| ReplicaAgreement.RepeatsDrop | auditable-voting-core/src/coordinator_state.rs:128-135 | redeliveries anywhere in the sequence have no effect |
| ReplicaAgreement.ReplicasAgree | auditable-voting-core/src/coordinator_engine.rs:324-367 | replicas that start alike and process one message sequence, with any redeliveries and with own messages coming back, end alike but for local_pubkey |
| Csv.ParseCsvLine | web/src/ResidentImportPreview.tsx:25-47 | the loop computes the scan function |
| Csv.ParseByCounting | web/src/ResidentImportPreview.tsx:25-47 | whatever the line, it is split at the commas with an even number of quotes before them, keeps all else but quotes that are not the first of a pair inside quotes, and trims each value |
| Csv.ValuesCounted | web/src/ResidentImportPreview.tsx:25-47 | so there is one value more than such commas |
| Csv.TrimStripsEnds | web/src/ResidentImportPreview.tsx:40-46 | trimming removes white space from both ends and nothing else |
| Csv.StrippedCharacters | web/src/ResidentImportPreview.tsx:40-46 | which 25 characters count as white space |
| Csv.TrimIgnoresEnds | web/src/ResidentImportPreview.tsx:40-46 | and all of it |
| Csv.ScanEscaped | web/src/ResidentImportPreview.tsx:31-43 | inside quotes an escaped text is read back as it was |
| Csv.ParseWritten | web/src/ResidentImportPreview.tsx:25-47 | parsing a line written as RFC 4180, section 2, rules 5 to 7 returns every field, trimmed |
| Csv.RoundTrip | web/src/ResidentImportPreview.tsx:25-47 | it returns exactly the fields iff none has anything to strip at its ends |
| Residents.CheckRecords | web/src/ResidentImportPreview.tsx:68-78 | the loop returns all records iff each is complete and no number repeats, else the error of the first that offends |
| Residents.ParseResidentRecords | web/src/ResidentImportPreview.tsx:49-79 | too few rows and missing columns are refused; otherwise the records the text holds are imported iff admissible |
| Residents.FirstColumn | web/src/ResidentImportPreview.tsx:54-58 | the column found is the first whose normalised header is the name or its alias, and -1 iff there is none |
| Residents.ColumnsByName | web/src/ResidentImportPreview.tsx:54-58 | which two names each of the four columns is found by |
| Residents.CapitalsIgnored | web/src/ResidentImportPreview.tsx:21-23 | capitals make no difference to which column a header names |
| Residents.SqueezeAppend | web/src/ResidentImportPreview.tsx:21-23 | headers are normalised character by character |
| Residents.SqueezeCharacter | web/src/ResidentImportPreview.tsx:21-23 | blanks, underscores and hyphens drop out, capitals are lowered, others stay |
| Residents.RecordByColumn | web/src/ResidentImportPreview.tsx:62-67 | each field of a record comes from its own column, trimmed, or is empty |
| Residents.RowsOfLines | web/src/ResidentImportPreview.tsx:50 | the rows are those of the lines that are not empty, in order |
| Residents.AdmissibleMeans | web/src/ResidentImportPreview.tsx:68-78 | records are imported iff each has a number and an e-mail address and no number repeats |
| Residents.OffendsMeans | web/src/ResidentImportPreview.tsx:69-76 | a record that lacks one is incomplete, one whose number came before repeats it |
| Residents.SplitJoined | web/src/ResidentImportPreview.tsx:50 | lines joined by LF or CRLF are found again unless one holds an LF, or ends in CR before a bare LF |
| Residents.SplitAnyLines | web/src/ResidentImportPreview.tsx:50 | any text is split at its line feeds, each ended line losing one carriage return |
| Residents.EndsIgnored | web/src/ResidentImportPreview.tsx:50 | white space around the text is ignored |
| Residents.ListRoundTrip | web/src/ResidentImportPreview.tsx:49-67 | a written list of plain records is read back as exactly those records |
| Residents.ImportWritten | web/src/ResidentImportPreview.tsx:49-79 | importing a written list returns the records iff they are complete with distinct numbers |

## Left out

- The OpenMLS group engine: a group engine is the `Codec` value, four functions, saved and restored whole, with decode inverting encode as a stated hypothesis. An engine whose decode changes its own state is not captured.
- JSON text and serde attributes: local echoes go through two functions of the `Codec`.
- Aliasing of round records: records and rounds are values held in maps that the classes reassign, so in-place update of one record through a reference is not captured.
- `CoordinatorControlEngine.state` is fixed at construction; a restore builds a new engine.
- `record_round_draft`, `commit_round_open` and the other thin wrappers around `create_outbound` beside `propose_round_open`; `engine_status`; join-package calls: single-branch code.
- The `latest_round` part of the view beyond `LatestRound`, and `snapshot_metadata`, whose compatibility flag is a parameter of the diagnostics.
- `toLowerCase` on headers is modelled for ASCII letters; no other character lower-cases into the column names compared with.
- The words of the resident-list error messages.
- In `Csv`, text is a sequence of Unicode scalar values where the browser has UTF-16 units; the scanner looks only at quotes, commas and white space, which are single units in both.
- Hash sets are `set`s and B-tree maps are `map`s traversed in key order; memory limits and `usize` overflow are not modelled. The `as u32` cast of a default `threshold_n` is.
- Clocks, relays, blind signatures, the worker and all React panels are not part of this model.
