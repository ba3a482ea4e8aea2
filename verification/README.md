# Agentmetry: what its protocols and set algorithms guarantee

A Dafny model of the parts of agentmetry that hold a protocol, a state machine or an algorithm over sets, with
proofs of what they promise. `dafny verify dfyconfig.toml` checks everything.

## The parts

* **Live export batcher** (`Batching`, `BatchingInvariants`, `BatchingTheorems`, `BatchingProgress`,
  `BatchingCommitter`). Any number of callers and closers, one worker, admission limits, a window bounded by
  count, bytes and time, a capacity channel that is closed and remade, a one-slot wake-up channel. Every region
  the source runs under its mutex, every channel operation and every call of the destination is one atomic step;
  the invariant holds after every step of every interleaving. The locked regions are also methods of a class over
  the source's fields, each proved to take the step of the same name. The progress file shows that no wake-up is
  lost, that no call waits forever, and that every scheduler answers every call.
* **Crash-safe replacement of the database** (`Replacement`, `ReplacementFiles`). Four paths and a manifest whose
  phase moves between file operations. A step may succeed, be refused, or take effect and still report an error; a
  crash may follow any step, and the next process starts recovery. `MigrationFiles` holds the same calls as
  methods that move files, proved to end where the machine ends on every script of outcomes.
* **Model-call identity** (`ByteStrings`, `CallIdentity`, `CallFacts`, `UnionFind`, `ClaudeCalls`,
  `ClaudeResolution`, `CostSummary`). Union-find on an array with path compression, connected components of shared
  aliases, the least alias of a component, the length-prefixed bytes hashed into an id, facts and prices reconciled
  as sets, and the cost of many calls.
* **Rework analysis** (`Effort`, `ReworkEvents`, `ReworkCycles`, `ReworkEffort`, `ValidationAttempts`,
  `FailureEpisodes`, `ReworkReport`). The one-pass scans against what they are meant to find, merged durations
  against the size of a union, and the inequalities that keep every comparison row consistent.
* **Rates and costs** (`RateIdentity`, `RateCatalog`, `RatePlanning`, `Cost`). Planning an append-only update of a
  temporal catalog, looking a rate up, and 64-bit charges with their rounding.
* **Change targets** (`Changes`). A bounded summary that may say too much and never too little.
* **Replay and archive** (`ReplayChunks`, `ReplayPipeline`, `JournalDigest`, `ArchiveGroups`, `Retention`). A
  producer and a writer over an unbuffered handoff, greedy batches, a digest chain, archive groups, and moves
  between the live catalog and archive files that may fail at any call.

## What the code does not do

Where a promise fails, the model keeps the code and a lemma gives the input.

* `Close` can return nil although exports were never handed to the destination: when another `Close` gave up, the
  worker resolves its window and queue with the cancellation but records no commit error
  (`BatchingTheorems.NilCloseCanHideLoss`). A nil `Close` means that everything was committed exactly when nothing
  was abandoned, and something is abandoned only after a `Close` whose context expired
  (`BatchingTheorems.NilCloseMeansCommitted`).
* Recovery cannot complete once the phase is past "validated", the backup is gone and the database at source does not
  pass at the target generation; a crash inside recovery between renaming the backup back and removing the manifest
  gets there (`Replacement.StuckIsReachable`, `Replacement.StuckForever`). Exactly then it fails
  (`Replacement.RecoveryCompletesUnlessStuck`). The data is still there.
* Install cut before its manifest is written leaves the candidate on disk, and the recovery that follows returns nil
  without touching it (`Replacement.EarlyCutKeepsCandidate`). Recovery after a cut removes the candidate exactly when
  there was a manifest to act on, or none was left (`Replacement.CutInstallRecovers`). The next build removes the leftover file first
  (internal/compaction/compaction.go:141-142).
* Two calls get one identity exactly when they are of one session and both are named by a sequence number, the same one
  (`ClaudeResolution.ClashExactly`); `ClaudeResolution.TwoSpellingsClash` is such an input, with one number spelled in
  two ways. With one spelling the two would be joined, and the program's own loader writes and parses canonical text
  (internal/storage/sqlite/claude_cost_projection.go:60-65, 204-226).
* Usage without reported input but with cache counters is valid, and its uncached share is negative
  (`Cost.UnreportedInputGoesNegative`); the split is exact if and only if input covers its breakdown
  (`Cost.SplitsExactly`). Such usage is still billed, as if the negative share were free, exactly when that share costs
  less than a micro-dollar and a half and the rest fits, as long as nothing wraps. Where it wraps, `Cost.Calculate`
  says what is charged, and `Cost.WrappedShareIsCharged` gives an input.
* An archive run leaves a new file that no catalog entry names exactly when the file was renamed into place and either
  syncing the directory failed or both the publication and the removal did (`Retention.OrphanExactlyWhenStranded`; an
  input is `Retention.FailedSyncStrands`).
  Nothing is lost, but while the file is there the same group cannot be archived again in the same cycle
  (`Retention.StrandedGroupIsRefused`). What a restore leaves is in the contract of
  `Retention.RetentionService.RestoreClaim`. The sweep that removes unnamed files when the lifecycle is recovered
  (internal/storage/sqlite/retention.go:2436-2470) is not part of this model.

## Reading the model

Times are integers and 0 is the zero time. A hash is a function without collisions: a parameter required to be
injective, or the preimage itself. Strings the source joins with NUL bytes to make a map key stay tuples. A choice
the environment makes (an error, a cancellation, the order of a map) is nondeterministic.

Preconditions the source relies on and the model states: evidence with distinct locators, one of the three provider
bases for every alias, sequence 0 outside the sequence basis, strings below four gigabytes and, where equal identities
are to mean one call, one spelling for each sequence number of a session; a stored rate catalog whose series do not
overlap; claims on exports and segments that do not overlap; canonical events that carry no ambiguity mark yet.

## Model

| member | source | states |
|---|---|---|
| BatchingCommitter.BatchingExportCommitter.Create | internal/ingest/batching_export_committer.go:77-103 | a committer exists exactly when the destination is there and the policy is valid, and starts accepting with nothing unresolved |
| BatchingCommitter.BatchingExportCommitter.TryAdmit | internal/ingest/batching_export_committer.go:114-139 | the locked region of an export, from the fields as they were: "closed" exactly when admission is over, the context's error exactly when it is open and the context has expired, admission exactly when count and bytes fit, otherwise waiting on the current capacity channel; admission counts and queues the request, and nothing else changes |
| BatchingCommitter.BatchingExportCommitter.SignalReady | internal/ingest/batching_export_committer.go:287-292 | the wake-up slot is full afterwards and nothing else changes |
| BatchingCommitter.BatchingExportCommitter.NotifyCapacity | internal/ingest/batching_export_committer.go:294-297 | everyone waiting on the old capacity channel is released, later waiters get a new one |
| BatchingCommitter.BatchingExportCommitter.StopAccepting | internal/ingest/batching_export_committer.go:147-154 | closing stops admission and wakes every waiter |
| BatchingCommitter.BatchingExportCommitter.TakeNext | internal/ingest/batching_export_committer.go:223-232 | the worker takes the oldest pending request, or learns that there is none and whether admission is still open |
| BatchingCommitter.BatchingExportCommitter.DrainPending | internal/ingest/batching_export_committer.go:212-217 | giving up moves the whole queue behind the window, in order |
| BatchingCommitter.BatchingExportCommitter.RecordError | internal/ingest/batching_export_committer.go:199-205 | the first commit error is kept, later ones are not |
| BatchingCommitter.BatchingExportCommitter.Resolve | internal/ingest/batching_export_committer.go:271-285 | the loop subtracts exactly the count and bytes of the requests it resolves, and wakes the waiters if there were any |
| BatchingInvariants.StepKeeps | internal/ingest/batching_export_committer.go:105-303 | every step of a caller, a closer or the worker keeps the whole invariant |
| BatchingInvariants.Reachable | internal/ingest/batching_export_committer.go:77-303 | the invariant holds in every state of every interleaving |
| BatchingTheorems.CountersAreExact | internal/ingest/batching_export_committer.go:124-135 | in every reachable state the counters equal the number and size of the admitted requests not yet resolved, and stay within the admission limits |
| BatchingTheorems.ResultsAreSentOnce | internal/ingest/batching_export_committer.go:271-285 | every admitted request gets at most one result, in order of admission, into a channel with room for it |
| BatchingTheorems.BatchesFollowAdmission | internal/ingest/batching_export_committer.go:186-209 | the batches handed over are non-empty, within both window limits, and concatenate to a prefix of admission order |
| BatchingTheorems.AnswersAreVerdicts | internal/ingest/batching_export_committer.go:196-206 | what a caller is told is its batch's outcome, or the cancellation if its request was abandoned |
| BatchingTheorems.RefusalsAreTrue | internal/ingest/batching_export_committer.go:105-139 | in every reachable state, whoever was told "closed" finds admission over, whoever got a context error has an expired context, and "too large" was told exactly to what exceeds a limit |
| BatchingTheorems.WindowHasRoom | internal/ingest/batching_export_committer.go:234-247 | the worker waits or takes only while its window has room for another request |
| BatchingTheorems.FlushHasReason | internal/ingest/batching_export_committer.go:223-267 | a flush begins only because the window is full, the next request would not fit, the timer has run out, or admission is over and the queue empty |
| BatchingTheorems.CommitIsChecked | internal/ingest/batching_export_committer.go:186-206 | the destination is only called for a window that was checked while the lifecycle context was alive |
| BatchingTheorems.CloseReportsFirstError | internal/ingest/batching_export_committer.go:199-205 | Close reports the first error the destination answered with; without one, nothing or the cancellation an interrupted worker met |
| BatchingTheorems.NilCloseMeansCommitted | internal/ingest/batching_export_committer.go:147-164 | a nil Close means all admitted exports were committed if and only if none was abandoned, and none is unless a Close context expired |
| BatchingTheorems.WorkerLeavesNothing | internal/ingest/batching_export_committer.go:166-221 | when the worker leaves, what was admitted is what it handed over, in order, and then what it abandoned; nothing is abandoned unless a Close context expired, whether or not batches failed |
| BatchingTheorems.NilCloseCanHideLoss | internal/ingest/batching_export_committer.go:211-221 | a run in which a later Close returns nil although an admitted export never reached the destination |
| BatchingProgress.NoLostWakeUp | internal/ingest/batching_export_committer.go:260-267 | a parked worker with pending work has a token or a caller about to signal; a waiting caller's request does not fit and admission is open; a window at the select has a timer |
| BatchingProgress.QuietMeansSettled | internal/ingest/batching_export_committer.go:166-285 | where no step but a new call or an expiring context is possible, every admitted request has been answered |
| BatchingProgress.OneResultForEach | internal/ingest/batching_export_committer.go:105-285 | where no step but a new call or an expiring context is possible, every admitted request has got exactly one result, and its caller returned that result |
| BatchingProgress.NoCallIsStuck | internal/ingest/batching_export_committer.go:105-164 | as long as a call waits for an answer, some step other than a new call or an expiring context is possible: no call, even with a context that never expires, waits for something that cannot come |
| BatchingProgress.EveryStepDescends | internal/ingest/batching_export_committer.go:105-303 | every step other than a new call lowers a measure |
| BatchingProgress.EverySchedulerAnswers | internal/ingest/batching_export_committer.go:105-303 | under every scheduler all calls made so far are answered after finitely many steps, without any context having to expire |
| Replacement.StepKeeps | internal/compaction/replacement.go:34-208 | every step of install and recovery, however it ends, keeps what the next step and the next process rely on |
| Replacement.Reachable | internal/compaction/replacement.go:34-208 | the invariant holds throughout every life of the files, with any crashes and restarts |
| Replacement.DataIsNeverLost | internal/compaction/replacement.go:34-204 | source or backup always holds the original database or one that passed validation |
| Replacement.BackupLeavesSafely | internal/compaction/replacement.go:174-204 | a backup disappears only by being renamed back, or after the database at source passed validation |
| Replacement.RecoveryCompletesUnlessStuck | internal/compaction/replacement.go:82-130 | uninterrupted recovery removes manifest and candidate and leaves a trusted database at source exactly when the replacement is not stuck |
| Replacement.StuckForever | internal/compaction/replacement.go:106-126 | from a stuck replacement no event changes a file and no recovery returns nil |
| Replacement.StuckIsReachable | internal/compaction/replacement.go:106-126 | a run of crashes that reaches a stuck replacement |
| Replacement.StuckComesFromRestoring | internal/compaction/replacement.go:111-118 | a replacement only gets stuck by restoring a backup that does not pass |
| Replacement.InstallIsRecoverable | internal/compaction/replacement.go:34-78 | wherever install is cut before it turns to its own recovery, the files it leaves are not stuck; the manifest is missing, and the candidate still there, exactly when install had not yet written it |
| Replacement.InstallInstalls | internal/compaction/replacement.go:34-78 | install returns nil if and only if the candidate passes and all its eleven steps succeed; then the candidate is at source and backup, candidate and manifest are gone |
| Replacement.RejectedInstallRestores | internal/compaction/replacement.go:66-78 | when all steps succeed and the candidate does not pass, install puts the old database back, alone, and returns an error |
| Replacement.CutInstallRecovers | internal/compaction/replacement.go:34-130 | install cut anywhere, then recovery without interruption: it completes if and only if the files are not stuck, source is then the old database or the new one that passed, and the candidate is gone if and only if a manifest was there or no candidate was left |
| Replacement.EarlyCutKeepsCandidate | internal/compaction/replacement.go:82-86 | install cut before its manifest is written: recovery returns nil and the candidate stays |
| ReplacementFiles.MigrationFiles.InstallValidated | internal/compaction/replacement.go:34-78 | install as file operations ends in the state the machine reaches, whatever its steps do; `Replacement.InstallInstalls` says when that is the new database |
| ReplacementFiles.MigrationFiles.RecoverOwned | internal/compaction/replacement.go:82-130 | recovery as file operations ends in the state the machine reaches |
| ReplacementFiles.MigrationFiles.RestoreBackup | internal/compaction/replacement.go:186-204 | restoring the backup ends in the state the machine reaches, and reports its cause even when it completes |
| ReplacementFiles.MigrationFiles.FinalizeReplacement | internal/compaction/replacement.go:174-184 | the final removals end in the state the machine reaches |
| ReplacementFiles.MigrationFiles.RemoveManifestFile | internal/compaction/replacement.go:261-268 | removing the manifest is the last step |
| CallIdentity.ParseSequence | internal/modelcall/model.go:93-102 | reads a 64-bit number back from its digits and gives 0 for everything else, without wrapping |
| CallIdentity.SequenceRoundTrip | internal/modelcall/claude.go:116-121 | every 64-bit sequence number survives being written as text and parsed |
| CallIdentity.PrefixedSplits | internal/modelcall/model.go:86-91 | what follows a length-prefixed string cannot blur where it ends |
| CallIdentity.PreimageInjective | internal/modelcall/model.go:32-63 | the bytes hashed for a call determine its source, session, basis and alias |
| CallIdentity.LocatorInjective | internal/modelcall/model.go:65-84 | a journal locator determines source, signal, payload hash, occurrence and ordinal |
| UnionFind.Find | internal/modelcall/claude.go:62-68 | find ends, returns the root, and compression keeps the forest and its roots |
| UnionFind.Join | internal/modelcall/claude.go:69-74 | join merges exactly the two classes and keeps the forest acyclic |
| ClaudeCalls.JoinEvidence | internal/modelcall/claude.go:57-91 | two items share a tree if and only if a chain of shared aliases within one session joins them |
| ClaudeCalls.OneSession | internal/modelcall/claude.go:75-91 | no component mixes sessions |
| ClaudeCalls.MoreEvidenceOnlyMerges | internal/modelcall/claude.go:81-91 | adding evidence never splits a component |
| CallFacts.ConflictingClaudeFacts | internal/modelcall/claude.go:178-204 | reports a conflict if and only if two members report different values of one fact |
| CallFacts.ReconcileClaudeFacts | internal/modelcall/claude.go:206-238 | a fact is kept exactly when some member reports it and no two disagree; reported zeros stay reported |
| CallFacts.ReconcileClaudeAttribution | internal/modelcall/claude.go:147-176 | a price is kept if and only if no fact conflicts, no amount is invalid, and one single amount is offered; otherwise the reason is the right one |
| CallFacts.ReconciledUnique | internal/modelcall/claude.go:206-238 | the reconciled facts depend on the set of members alone |
| CallFacts.AttributedUnique | internal/modelcall/claude.go:147-176 | the attribution depends on the set of members alone |
| ClaudeResolution.CanonicalAlias | internal/modelcall/claude.go:123-145 | picks a least alias of the members, or falls back to the first locator |
| ClaudeResolution.LeastUnique | internal/modelcall/claude.go:131-139 | any two least aliases give the same basis and text |
| ClaudeResolution.IdentitiesTellApart | internal/modelcall/claude.go:97-104 | with one spelling for each sequence number, calls with the same id are one component |
| ClaudeResolution.ClashExactly | internal/modelcall/claude.go:97-104 | two different calls share an id if and only if they are of one session and both are named by a sequence number, the same one |
| ClaudeResolution.TwoSpellingsClash | internal/modelcall/claude.go:81-91 | an input where it happens: two spellings of one sequence number stay apart and get one identity |
| ClaudeResolution.BuildCall | internal/modelcall/claude.go:97-110 | the call of a component: members by locator, first member as representative, identity, facts and price |
| ClaudeResolution.ResolveClaudeCalls | internal/modelcall/claude.go:57-114 | exactly one call for every connected component, ordered by id |
| ClaudeResolution.ResolutionUnique | internal/modelcall/claude.go:55-114 | two resolutions of the same set of evidence are equal |
| ClaudeResolution.ResolveInAnyOrder | internal/modelcall/claude.go:55-114 | any two arrival orders of the same evidence resolve to the very same calls |
| ClaudeResolution.EvidenceInOneCall | internal/modelcall/claude.go:92-111 | every piece of evidence is in exactly one call |
| CostSummary.SummarizeCost | internal/modelcall/model.go:177-225 | whatever the order of the map: exact counts, an error if and only if a priced amount is negative or the exact sum does not fit, otherwise the exact sum |
| CostSummary.EligibleConserved | internal/modelcall/model.go:178-198 | every call is either priced or counted under exactly one reason |
| CostSummary.SummaryUnique | internal/modelcall/model.go:177-225 | the summary is determined by the calls |
| Effort.MergedDuration | internal/query/analysis.go:84-102 | the merged duration is the number of instants some interval covers, for any input order |
| Effort.TotalEffort | internal/query/analysis.go:46-70 | the active duration is the sum over agents of the size of the union of their intervals |
| Effort.CoveredSame | internal/query/analysis.go:84-102 | only which intervals there are matters |
| ReworkCycles.DetectReworkCycles | internal/query/rework.go:521-561 | the single scan finds exactly the failure-edit-retry pairs of the definition, each with its evidence, in the order of their retries |
| ReworkCycles.CycleEvidence | internal/query/rework.go:541-549 | the evidence of a cycle is exactly the events of its agent from its failure to its retry, in order, and an edit lies between the two |
| ReworkCycles.CycleSpan | internal/query/rework.go:550-553 | a cycle has the agent, operation and target of its retry and lasts from the start of its failure to the end of its retry |
| ReworkCycles.CyclesAreOneToOne | internal/query/rework.go:521-561 | each failure opens at most one cycle and each retry closes at most one |
| ReworkEffort.ActiveDuration | internal/query/analysis.go:46-70 | the active duration of the events counts the instants of each agent's activity |
| ReworkEffort.CycleEffort | internal/query/rework.go:563-604 | rework duration counts the instants of agents' activity inside their cycles |
| ReworkEffort.ReworkWithinEffort | internal/query/rework.go:267-272 | rework duration never exceeds total agent effort |
| ValidationAttempts.MergeOrderIsFree | internal/query/rework.go:463-507 | verdict, ambiguity, fingerprint and span of a merged attempt depend only on which observations were merged |
| ValidationAttempts.ConflictExactly | internal/query/rework.go:463-472 | an observation is rejected if and only if it differs in kind of validation, command or agent from an observation merged before |
| ValidationAttempts.Observe | internal/query/rework.go:412-446 | every relevant event ends in one group or is dropped as a conflict, and each observation summarises its group |
| ValidationAttempts.ProjectValidationAttempts | internal/query/rework.go:412-461 | attempts are ID-backed plus uncorrelated, their ids are distinct, observations are conserved, and every conflict is counted |
| FailureEpisodes.DetectFailureEpisodes | internal/query/rework.go:303-339 | finds exactly the episodes of the definition, each once, with its failures, fingerprints, end and resolution, ordered by start, those that start together as they were completed |
| FailureEpisodes.IdentitiesAgree | internal/query/rework.go:509-514 | validations are of one identity if and only if operation, directory, command and agent agree, where no agent is the main one |
| FailureEpisodes.FailureHasOpening | internal/query/rework.go:303-339 | every identified failed attempt with an id belongs to an episode |
| FailureEpisodes.FailureHasOneOpening | internal/query/rework.go:303-339 | and to no more than one |
| FailureEpisodes.OneUnresolved | internal/query/rework.go:329-336 | at most one episode of an identity stays unresolved |
| FailureEpisodes.RecurringFailsTwice | internal/query/rework.go:290-301 | a recurring episode has at least two failures |
| ReworkReport.CountTools | internal/query/rework.go:171-183 | tool attempts and failures are exact counts of events with an outcome |
| ReworkReport.CountOutcomes | internal/query/rework.go:215-231 | attempts with an outcome and validation failures are exact counts |
| ReworkReport.CountFirstPasses | internal/query/rework.go:214-249 | eligible identities and first-pass successes come from the first attempt of each identity that has an id and an outcome |
| ReworkReport.CountLoops | internal/query/rework.go:251-265 | recurring loops are resolved plus unresolved, and repeated failures are at least twice as many |
| ReworkReport.LoopsWithinOutcomes | internal/query/rework.go:251-265 | there are never more recurring loops than attempts with an outcome |
| ReworkReport.AnalyzeRework | internal/query/rework.go:149-275 | all counts of the report, tied to the events, and the inequalities the comparison relies on |
| ReworkReport.ConsistentReportsCompare | internal/query/rework_comparison.go:129-138 | a consistent report has no inconsistent row, and every value is a percentage |
| ReworkReport.CompareNeverInconsistent | internal/query/rework_comparison.go:129-172 | each of the four rows is unavailable exactly when there is nothing to compare with, and otherwise the percentage of what was counted: first passes of eligible identities, covered instants inside cycles of all covered instants in milliseconds, failed tool events of those with an outcome, recurring loops of attempts with an outcome; none reads as inconsistent |
| RateIdentity.RateIdInjective | internal/billing/rates.go:33-44 | the bytes hashed into a rate id determine provider, model, mode, condition and start |
| RateCatalog.OneActive | internal/billing/manifest.go:57-79 | in a well-formed catalog at most one rate of a series holds at an instant, and only the newest is open |
| RateCatalog.ResolveRate | internal/billing/rates.go:66-88 | nothing is found if and only if no rate of the provider, model and mode holds at the instant; the condition is unsupported if and only if some do and each has a limit below the tokens; a rate is the answer if and only if it alone holds and admits the tokens; a conflict if and only if two do |
| RateCatalog.HistoryUnchanged | internal/billing/rates.go:66-88 | extending a catalog changes no lookup before the first new rate of that provider, model and mode, up to a rate's end |
| RatePlanning.FindLatest | internal/billing/manifest.go:57-65 | finds the newest rate of the series, or that there is none |
| RatePlanning.AppendedWellFormed | internal/billing/manifest.go:66-84 | closing the newest rate at its successor's start and appending keeps the catalog well-formed |
| RatePlanning.PlanRateManifestUpdate | internal/billing/manifest.go:23-89 | a manifest is planned if and only if it is acceptable in a sense that ignores its order; the plan keeps stored rates up to a closure and adds exactly the missing ones; a manifest stored already plans nothing |
| RatePlanning.Store | internal/billing/manifest.go:70-84 | carrying out the closures and inserts gives the catalog the plan describes |
| RatePlanning.Replan | internal/billing/manifest.go:48-55 | a first plan exists if and only if the manifest is acceptable; storing it gives the catalog the plan describes, on which the same manifest is acceptable again and plans nothing |
| RatePlanning.PlanKeepsHistory | internal/billing/rates.go:66-88 | a plan changes no lookup before its first insert for that provider, model and mode |
| Cost.Validate | internal/canonical/model.go:117-145 | accepts exactly the usages with no negative counter and no breakdown above what it breaks down |
| Cost.Charge | internal/billing/cost.go:119-127 | for tokens that are not negative: rounds to the nearest micro-dollar, halves up, and refuses exactly what does not fit; for negative tokens: free exactly while they cost less than a micro-dollar and a half |
| Cost.AddCharges | internal/billing/cost.go:91-100 | the exact sum, or an error if and only if a charge is negative or the sum does not fit |
| Cost.Calculate | internal/billing/cost.go:50-89 | exactly when it bills and what: with input covering its breakdown, an exact split, each part rounded to the nearest, if and only if every part and their rounded sum fit; otherwise if and only if the negative share, as 64 bits charge it, is not negative and the rest fits |
| Cost.TotalIsClose | internal/billing/cost.go:50-89 | the total is within two micro-dollars of the exact rational cost |
| Cost.SplitsExactly | internal/billing/cost.go:55-55 | valid usage splits into non-negative parts that add up if and only if input covers its breakdown |
| Cost.UnreportedInputGoesNegative | internal/billing/cost.go:55-55 | a valid usage whose uncached share is -1 |
| Cost.WrappedShareIsCharged | internal/billing/cost.go:119-127 | a valid usage whose negative share is charged 4.6 million dollars because its cost wraps |
| Changes.NoMissedInvalidation | internal/query/changes.go:85-91 | a session or trace affected by an added target is affected by a target kept |
| Changes.AllOnlyIfAdded | internal/query/changes.go:107-127 | an "all" target is kept only if its family was added |
| Changes.AtMostThreeMore | internal/query/changes.go:107-127 | at most limit + 3 targets are kept |
| Changes.NextExactly | internal/query/changes.go:107-127 | what is kept after an addition: a family target replaces its family, a target of a family kept whole adds nothing, within the limit nothing is given up, past it the family gives way or nothing exact is left but the overview |
| Changes.ChangeTargetSet.constructor | internal/query/changes.go:100-105 | an empty set with a limit of at least 1 |
| Changes.ChangeTargetSet.Add | internal/query/changes.go:107-127 | the next set of targets, described by `Changes.NextExactly`; it still summarises everything added, has no target beside its "all" form, counts what it holds, respects the limit, and loses nothing while few exact targets were added |
| Changes.ChangeTargetSet.DeleteKind | internal/query/changes.go:171-178 | the loop removes exactly the targets of a kind and their count |
| Changes.ChangeTargetSet.CompactAll | internal/query/changes.go:180-204 | folds every exact family into its "all" target and plan usage into the overview, leaving nothing exact but the overview |
| ReplayChunks.ReplayChunkSource.Next | internal/compaction/compaction.go:417-450 | a batch is what comes next, within 256 records and 32 MiB unless one record alone is larger, and as long as possible; nothing is skipped or repeated |
| ReplayChunks.ReplayChunkSource.Drain | internal/compaction/replay_pipeline.go:132-147 | the batches concatenate to exactly the reader's records and none is empty |
| ReplayPipeline.StepKeeps | internal/compaction/replay_pipeline.go:80-147 | every step of producer, writer, handoff or cancellation keeps the invariant |
| ReplayPipeline.CommitsPrefix | internal/compaction/replay_pipeline.go:75-130 | what is committed is a prefix of the source, the advanced prefix lags by at most one batch, and at most one batch is prepared ahead |
| ReplayPipeline.ResultIsHonest | internal/compaction/replay_pipeline.go:119-129 | the producer has returned when the pipeline returns; nil means everything was committed and advanced over; without a failure there is no error; a failed preparation leaves no batch handed over uncommitted |
| ReplayPipeline.NilMeansNothingFailed | internal/compaction/replay_pipeline.go:85-130 | a pipeline nobody cancels returns nil if and only if no preparation, commit or advance failed and every batch matches; with a cancellation nil still means both |
| ReplayPipeline.EverythingCommitted | internal/compaction/replay_pipeline.go:80-130 | for the batches the source cuts from a journal, every pipeline has committed the front of the journal at every moment, record for record, and all of it when cutting succeeds and it returns nil |
| ReplayPipeline.NeverStuck | internal/compaction/replay_pipeline.go:85-147 | until the pipeline returns, producer or writer can take a step |
| ReplayPipeline.RunsAreShort | internal/compaction/replay_pipeline.go:85-147 | no run takes more than six steps a batch and six more, besides cancellations |
| JournalDigest.DigestDetermines | internal/compaction/validation.go:66-77 | as many identities with the same digest are the same identities in the same order |
| JournalDigest.ValidationExpectation.Add | internal/compaction/validation.go:43-64 | count and digest stand for the identities added so far |
| JournalDigest.ValidateJournal | internal/compaction/validation.go:105-146 | the loop passes if and only if every row can be restored, and count and digest agree |
| JournalDigest.CandidateHasJournal | internal/compaction/validation.go:43-146 | the journal loop of the candidate's validation passes if and only if it holds exactly the journal that was replayed |
| ArchiveGroups.ArchiveGroupBoundary.TryInclude | internal/retention/service.go:272-284 | takes an export exactly when its size and the limit are legal and it is the first, or has the date of the group and fits in 64-bit arithmetic |
| ArchiveGroups.NextArchiveGroup | internal/storage/sqlite/retention.go:149-194 | the group is the longest front the boundary takes, of one date |
| ArchiveGroups.GroupIsLongest | internal/retention/service.go:272-284 | for legal payloads a group is never empty, has one date, stays within the limit unless one export alone is larger, and stops only at another date or where the limit would be exceeded |
| ArchiveGroups.CountArchiveGroups | internal/storage/sqlite/retention.go:87-128 | planning from dates and sizes counts exactly the groups the boundary cuts |
| ArchiveGroups.ArchiveAll | internal/retention/service.go:198-202 | archiving group after group takes exactly as many groups as were planned and covers every export once |
| ArchiveGroups.MakeManifest | internal/archivefs/archive.go:274-300 | the checks pass exactly for positive distinct ids, legal sizes, one date and a bounded total |
| ArchiveGroups.GroupsPassManifest | internal/retention/service.go:264-284 | every group of legal payloads the boundary cuts passes the manifest's checks |
| Retention.Split | internal/retention/service.go:375-383 | a segment splits into selected and remaining exports, each export on one side, once, in order |
| Retention.ArchiveKeeps | internal/retention/service.go:247-260 | publishing an archive keeps every export in exactly one place and every current segment backed by its file |
| Retention.RestoreKeeps | internal/retention/service.go:416-421 | publishing a restore keeps every export in exactly one place and every current segment backed by its file |
| Retention.RestoresScope | internal/retention/service.go:374-422 | what matches the scope is live again, what does not stays archived, segments outside the claim are untouched |
| Retention.ArchivedInOneFile | internal/compaction/validation.go:204-212 | an archived export is in exactly one current segment and its file holds it |
| Retention.OrderedSorts | internal/archivefs/archive.go:174-180 | the exports of a file are exactly those given, by receive time and id |
| Retention.OrphanExactlyWhenStranded | internal/retention/service.go:242-260 | a run leaves a new file no catalog entry names if and only if the directory sync failed, or publication and removal both did |
| Retention.FailedSyncStrands | internal/archivefs/archive.go:248-254 | the first archive run of a store whose directory cannot be synced leaves such a file, and running it again changes nothing |
| Retention.StrandedGroupIsRefused | internal/archivefs/archive.go:242-247 | while such a file is there, archiving its group again in the same cycle changes nothing and fails |
| Retention.RetentionService.Build | internal/archivefs/archive.go:170-258 | the exact files afterwards: a new file with exactly the exports, by receive time and id, if everything before the rename succeeds and the name is free, and no change otherwise; a failed directory sync returns an error and leaves the file |
| Retention.RetentionService.ArchiveNextGroup | internal/retention/service.go:219-262 | the exact files and catalog afterwards, however its calls fare: the group moves into a new segment if and only if all of them succeed, otherwise the catalog is as before and no file that was there is touched |
| Retention.RetentionService.PrepareSegment | internal/retention/service.go:353-413 | one turn of the restore loop succeeds if and only if the file verifies, holds something to restore that replays, and the rest, if any, gets its replacement; the exact files either way |
| Retention.RetentionService.Discard | internal/retention/service.go:344-352 | the cleanup removes exactly the replacements that can be removed |
| Retention.RetentionService.RestoreClaim | internal/retention/service.go:319-429 | publishes if and only if every call it needs succeeds (`Retention.RestoresExactly`); the exact files after success and after failure; after publication the scope is restored, before it the catalog and old files are as before; no file outside the claim is ever touched |
| Retention.RestoresExactly | internal/retention/service.go:333-413 | a restore publishes if and only if capacity, verification, replay and publication succeed, the claim is not empty, every claimed segment holds an export of the scope, and each that also holds others gets its replacement, under a free name |
| Retention.PartialRestorePublishes | internal/retention/service.go:374-413 | a restore of part of a segment publishes when its calls succeed |
| Retention.DatesDivide | internal/retention/service.go:376-376 | adjacent date scopes divide the scope over both, and the scope of one instant is that instant |
| Retention.RetentionService.AnyRuns | internal/retention/service.go:219-429 | after any sequence of archive and restore runs, failing wherever they may, every export is live or in exactly one current segment whose file holds it |

## Left out

- ReworkReport.AnalyzeRework: starts from canonical events already in time order; leaves out tokens, capability flags, repeated commands, re-edited files, resolution time and API retry waste; total effort is taken over the events, which keep the agents and times of their activities.
- ReworkReport.CompareNeverInconsistent: covers four of the five rows, because the session's tokens come from code outside this model.
- ReworkCycles.DetectReworkCycles: takes events in the order the caller sorted them; evidence is positions, not the references and keys of the events there.
- JournalDigest.CandidateHasJournal: is the journal loop alone; the table counts and the other checks of a candidate are not part of this model.
- ArchiveGroups.MakeManifest: builds no member records, and neither JSON nor the segment hash.
- Retention.RetentionService.Build: treats tar, zstd and the verification of the candidate as steps that may fail before the rename.
- Retention.RetentionService.RestoreClaim: does not model the replay of selected exports beyond that it may fail, nor the operation records.
- ReplayPipeline.EverythingCommitted: takes an error from the destination to mean that the batch was not committed.
- RatePlanning.PlanRateManifestUpdate: does not fix the order of inserts of different series.
- ClaudeResolution.ResolveClaudeCalls: calls find once for each item where the source calls it twice.
- CallFacts.ConflictingClaudeFacts: fills the eight sets one after the other where the source fills them in one pass.
- BatchingCommitter.BatchingExportCommitter.Create: leaves out the admission observer, which only watches.
- Go's 64-bit durations and counters outside `Cost`, `CostSummary`, `CallIdentity` and `ArchiveGroups`: unbounded here.
- Directory synchronisation of the replacement, the WAL and SHM sidecars and the lock file: every rename, removal or manifest write is one durable step.
- SQL, the schema and the copying of tables, the other checks of a candidate database: not part of this model.
- Segment deletion, recovery of interrupted deletions and the removal of files no catalog entry names: not part of this model.
- `Values` and its order, targets with fields their constructor does not set, cursors and paging of change history.
- The workers that prepare the records of a batch: each fills its own slot.
- Command classification, text normalisation, OTLP decoding, HTTP, gRPC and the user interfaces: no property of this kind.
