# Opcore core protocols, modelled and verified

Opcore checks source snapshots, compares findings against a baseline, caches per-file facts and
serves results over JSON-RPC. This project models the parts of it that carry real state and proves
what they promise, for every input, every schedule and every reachable state:

- **Winnowing** (`Words`, `RollingHash`, `Winnowing`, `WinnowerModel`, `RegionFacts`, `RegionTokens`, `Evidence`).
  Reference definitions of k-grams, window minima and anchors; the streaming winnower as a class proved
  against them; the guarantee that a shared run of 48 tokens leaves a common anchor; and the reader of
  the encoded token records, which accepts exactly what the producer writes for tokens in source order.
  The facts of a file are told from its tokens.
- **Evaluation and comparison** (`Collections`, `Sorting`, `TextOrder`, `Diagnostics`, `Evaluation`, `Assessments`,
  `Comparison`, `Renames`, `RenameInvariance`, `AssessmentLaws`, `IntroducedLaw`). The bounded store of the smallest diagnostics, the
  independence of the outcome from the order in which workers deliver, the comparison law with
  renames, and the invariance of the introduced comparison under renames. Status, counts, gaps and
  diagnostics of an assessment are told from the results, and what is introduced from the inputs.
- **Fact caches** (`MemoryCache`, `PersistentCache`, `FactLoad`, `FactFile`, `DiskProtocol`,
  `DiskOutcomes`, `QuotaTrim`). The in-memory first-in-first-out cache, transparency of either cache, the
  self-validating file format, the on-disk publication protocol as interleaved atomic steps, and the
  quota loop.
- **Provider server** (`ServerProtocol`, `ServerEffects`, `Framing`). The lifecycle and the single live
  evaluation over every run, from admission to its one reply, and two frame readers that depend on the bytes and not on how they
  are chunked.
- **Hook installer** (`HookConfig`, `HookInstall`, `HookEdits`). The journaled receipt/configuration protocol with a
  crash between any two writes and edits by the user at any time.
- **Duplicates and report output** (`Coverage`, `Duplicates`, `DuplicateSearch`, `DuplicateLaws`,
  `DuplicateLimits`, `ReportOutput`). Agreement of the three coverage passes, the counting argument behind
  introduced duplicates, the loop that bounds the report, and enforcement.
- **Line indexes and digests** (`LineIndex`, `Bytes`, `DigestFraming`, `SnapshotIdentity`). Four
  constructions of one line index, positions and their inverse, and uniquely decodable framing.

Where the code works in place, the model is a class or a method with loops, and its contract ties the
new state to a specification function; the lemmas are about those functions and about runs of state
machines built from them. Hashes (SHA-256, the token hash), analysis, rendering and clocks are
parameters, and so is the order in which parallel workers and other processes take their steps.

Some expected properties are false of the code. Each has a lemma at a failing run or input, and the
condition under which the property holds:

- A message of exactly 8 MiB passes both writers and is refused by both readers, since these count the
  newline: `Framing.MaximalMessageRefused`. `Framing.WrittenThenRead` says exactly when messages are read
  back, `Framing.HostMessageRead` and `Framing.ProviderMessagesRead` for what each writer sends.
- A repair may remove a valid fact: `DiskProtocol.RepairMayRemoveValid` is a run, and
  `DiskProtocol.RemovesInvalidIffSeen` shows that what is removed is invalid exactly when an object was
  present at the locked check. Readers are safe either way.
- `ShuttingDown` is not final: `ServerProtocol.ShutdownCanBeUndone` gives runs, and
  `ServerProtocol.ShuttingDownIffStands` is the exact condition over all runs.
- Under a receipt without entries, left by an older installer, both an install and an uninstall with
  another binary leave the old handler unowned: `HookInstall.LegacyHandlerLost`. `HookInstall.LegacyTakeover`
  and `HookInstall.LegacyUninstall` are the exact conditions, and `HookInstall.RunCovers` covers every
  history in which no run starts in that situation.
- Interrupted installs with a third binary leave a receipt that every later run refuses:
  `HookInstall.ThirdBinaryWedges` is a run, `HookInstall.WedgedForever` says what follows, and
  `HookInstall.JournalBound` when a journal stays acceptable.
- Uninstalling does not restore every configuration: `HookInstall.EmptyListNotRestored`.
  `HookInstall.UninstallRestores` says exactly which it does.
- An edit by the user between the installer's comparison and its write is lost: `HookEdits.LateEditLost`.
  `HookEdits.OverwritesWhatItRead` shows that no other is, and `HookEdits.ChangeStops` that an edit before
  the comparison stops the run.
- Callables may be left out of a view, at the limit of 200 000 per request and at the limit of 4096 per
  file; then a class may be reported without growth, or grow unreported:
  `DuplicateLimits.CutBaselineReports`, `DuplicateLimits.CutAfterMisses`,
  `DuplicateLimits.CrowdedBaselineReports` and `DuplicateLimits.CrowdedAfterMisses`. Only the first limit
  sets a flag of its own. `DuplicateSearch.FindingsAreGrounded` and `DuplicateSearch.GrowthIsAccounted` say
  that this happens only where the view of the side concerned leaves out some of the class;
  `DuplicateSearch.UnlimitedIsWhole` and `DuplicateSearch.CoverageTells` say how to rule that out.

## Model

| member | source | states |
|---|---|---|
| `RollingHash.WrappingPower` | src/analysis/dedup.rs:288-296 | the loop yields base^exponent mod 2^64 |
| `RollingHash.RollingStep` | src/analysis/dedup.rs:226-240 | the wrapping update of a full window gives the direct polynomial hash mod 2^64 of the shifted window |
| `Winnowing.KgramsTold` | src/analysis/dedup.rs:209-249 | a stream has one k-gram for each run of 32 tokens: the polynomial hashes, modulo 2^64, of their first and of their second hashes |
| `Winnowing.LessTold` | src/analysis/dedup.rs:254-257 | hash pairs are ordered totally, by the first hash and then the second |
| `Winnowing.SelectionsOrdered` | src/analysis/dedup.rs:251-286 | selections strictly increase; there are some exactly when a window is full; the last belongs to the last window |
| `Winnowing.SelectionsExact` | src/analysis/dedup.rs:251-286 | the selected indexes are exactly the rightmost minima of the 17-k-gram windows |
| `Winnowing.SelectionGaps` | src/limits.rs:27-29 | consecutive selections are at most 17 apart and the first lies in the first window |
| `Winnowing.SelectionsGrow` | src/analysis/dedup.rs:251-286 | the selections of a prefix of the k-grams are a prefix of the selections |
| `Winnowing.SharedRunSharesAnchor` | src/analysis/dedup.rs:198-286 | two streams that share 48 consecutive token hashes at offsets a and b both have an anchor with one hash pair at a+d and b+d, some d < 17 |
| `WinnowerModel.DequeFront` | src/analysis/dedup.rs:255-271 | the front of the monotone deque is the rightmost minimum of the last 17 k-grams |
| `WinnowerModel.ObservedDeque` | src/analysis/dedup.rs:255-265 | popping not-smaller candidates, appending, and dropping expired ones turns the deque of a prefix into the deque of the longer stream |
| `WinnowerModel.Winnower.constructor` | src/analysis/dedup.rs:198-207 | the initial state is that of the empty stream |
| `WinnowerModel.Winnower.Push` | src/analysis/dedup.rs:209-249 | a push fails exactly when the stream so far selects more than 4096 anchors; after a success the anchors are those of the whole stream and the rolling pair is the direct hash of the last 32 tokens |
| `WinnowerModel.Winnower.AdvanceWindow` | src/analysis/dedup.rs:210-248 | the token window and both hashes follow the stream; a full window makes the pair the newest k-gram |
| `WinnowerModel.Winnower.ObserveKgram` | src/analysis/dedup.rs:251-286 | the deque, the counter and the anchors follow the k-grams, failing exactly above the cap |
| `RegionFacts.RegionFingerprints` | src/analysis/dedup.rs:118-158 | one pass yields the records and all anchors of the stream, or the truncated facts, exactly as the whole-stream definition says |
| `RegionFacts.OverflowPersists` | src/analysis/dedup.rs:118-165 | once a prefix exceeds the anchor cap the file's facts are truncated, whatever follows |
| `RegionFacts.MalformedPersists` | src/analysis/dedup.rs:118-165 | once a prefix cannot be encoded, neither can the whole |
| `RegionTokens.RecordsFromTokens` | src/analysis/dedup.rs:118-150 | the records of a readable stream are its counted tokens in order, with their positions, tags and texts, each with the encoding of exactly the uncounted tokens between the previous counted token and itself |
| `RegionTokens.ReadableIffFits` | src/analysis/dedup.rs:126-139 | a stream is readable exactly when no counted token ends before it starts and no run of uncounted tokens encodes to more than 65 535 bytes |
| `RegionTokens.EncodingDetermines` | src/analysis/dedup.rs:167-171 | two such runs have one encoding exactly when they have the same tags and texts |
| `RegionTokens.FactsFromTokens` | src/analysis/dedup.rs:118-165 | the facts are complete exactly when the tokens fit and the hashes of the counted tokens, each with its run, select at most 4096 anchors; they then list those anchors and count those tokens, and otherwise hold nothing |
| `RegionTokens.SharedTokensShareAnchor` | src/analysis/dedup.rs:118-286 | two files with complete facts that share a run of tokens, up to positions, with 48 counted ones and beginning after a counted token, share an anchor there |
| `Evidence.DecodeTokenRecords` | src/sense/dedup/regions/evidence.rs:71-100 | the loop yields the records of the bytes, or nothing if one is cut off, out of order, empty or outside the source, or their number is not the expected one |
| `Evidence.ReadWritten` | src/sense/dedup/regions/evidence.rs:102-122 | a record is read back from wherever it is written |
| `Evidence.WrittenWhereRead` | src/sense/dedup/regions/evidence.rs:102-122 | what is read at a position is a record written there |
| `Evidence.DecodeWritten` | src/sense/dedup/regions/evidence.rs:71-122 | written records are accepted exactly when they are in source order without overlap, and are then read back |
| `Evidence.DecodedIsWritten` | src/sense/dedup/regions/evidence.rs:71-122 | any accepted bytes are the encoding of such records |
| `Evidence.AcceptedIffEvident` | src/sense/dedup/regions/evidence.rs:27-100 | facts are accepted, whoever wrote them, exactly when they encode as many records as they say, in source order, and every anchor's 32 tokens lie within them |
| `Evidence.FactsReadBack` | src/sense/dedup/regions/evidence.rs:27-54 | complete region facts are accepted by their reader, anchors included, exactly when the counted tokens are in source order, and give back those tokens |
| `Diagnostics.PrecedesStrictWeak` | src/engine.rs:730-741 | the report order is a strict weak order whose ties agree on path, rule, fingerprint and position |
| `TextOrder.FirstDifference` | src/engine.rs:730-741 | byte strings are ordered by their first difference, a prefix coming first |
| `Diagnostics.RetainBounded` | src/engine.rs:663-668 | replacing a largest element by a smaller candidate keeps the smallest of all diagnostics seen |
| `Diagnostics.BoundedDiagnostics.Push` | src/engine.rs:614-630 | the store holds the min(N, 10000) smallest of all pushed diagnostics; overflow is set exactly when N exceeds the cap |
| `Diagnostics.BoundedDiagnostics.PushAll` | src/engine.rs:632-646 | the same after a list of pushes |
| `Diagnostics.BoundedDiagnostics.Merge` | src/engine.rs:632-646 | merging is as if all the other store's diagnostics had been pushed, including those it dropped |
| `Diagnostics.BoundedDiagnostics.IntoSorted` | src/engine.rs:652-661 | the result is the first 10000 of all pushed diagnostics in report order, for every order and grouping of pushes |
| `Sorting.SortSorts` | src/engine.rs:652-661 | the reference sort is sorted and a permutation |
| `Sorting.SortedUnique` | src/engine.rs:652-661 | sorted lists of one multiset whose ranks are distinct are equal |
| `Sorting.SmallestMerge` | src/engine.rs:632-646 | keeping the smallest of the smallest keeps the smallest of the whole |
| `Sorting.SmallestUnique` | src/engine.rs:596-668 | the k smallest are determined by the whole |
| `Evaluation.TotalPermutation` | src/engine.rs:280-316 | the totals of a batch do not depend on the order of the results |
| `Evaluation.AnalysisBatch.Push` | src/engine.rs:281-305 | one result adds its contribution to counts, gaps and both stores |
| `Evaluation.AnalysisBatch.PushReady` | src/engine.rs:307-315 | a covered path adds its two diagnostic lists |
| `Evaluation.FirstError` | src/engine.rs:202-254 | no error exactly when every result succeeds; otherwise an error of the results |
| `Evaluation.FirstErrorIs` | src/engine.rs:242-250 | the reported error is that of the lowest failing index |
| `Evaluation.RunSequential` | src/engine.rs:202-254 | the sequential loop returns the lowest-index error or the totals of the request order |
| `Evaluation.RunParallel` | src/engine.rs:202-254 | for every delivery order the parallel run returns the lowest-index error or the totals of the request order |
| `Evaluation.RunAnalysis` | src/engine.rs:202-254 | both branches return the same error and totals |
| `Assessments.RanksInjective` | src/engine.rs:730-741 | over distinct paths no two diagnostics or gaps share a rank, so sorting is unambiguous |
| `Assessments.TotalLists` | src/engine.rs:280-316 | the order-free totals list exactly the diagnostics and gaps of the request-order results |
| `Assessments.FinalizeAssessment` | src/engine.rs:328-395 | the assessment of a batch is the one determined by the results in request order |
| `Assessments.Assess` | src/engine.rs:202-395 | for every schedule the outcome is the lowest-index error or that one assessment: same sorted diagnostics, counts, sorted gaps and status |
| `AssessmentLaws.StatusTold` | src/engine.rs:428-445 | every input is considered and the analyzed ones are covered; the status is cancelled exactly when some input was, otherwise incomplete exactly when a compared side has more than 10 000 diagnostics, otherwise findings exactly when there are diagnostics, and clean exactly when there are none |
| `AssessmentLaws.GapsTold` | src/engine.rs:281-375 | the gaps are those of the unsupported and the cancelled inputs, and one for the request that names the overflowing sides exactly when a compared side overflows; they are listed by path |
| `AssessmentLaws.SidesTold` | src/engine.rs:307-315 | the candidates and the baseline are what the results found in the two versions |
| `AssessmentLaws.ReportOrder` | src/engine.rs:730-741 | the report order is by path, then rule, then fingerprint, then position in the file |
| `AssessmentLaws.DiagnosticsTold` | src/engine.rs:328-426 | in mode All the first 10 000 candidates in report order; for the introduced ones nothing if the baseline overflows, otherwise the candidates with new fingerprints, or per path and key those beyond the baseline and the renamed baseline; always in report order |
| `Comparison.SeenBeyond` | src/engine.rs:743-789 | cancelling a budget leaves, per class, what exceeds it |
| `Comparison.BeyondTwice` | src/engine.rs:743-789 | cancelling exact matches and then renamed ones is cancelling the sum at once |
| `Comparison.SurvivorPositions` | src/engine.rs:743-789 | survivors are the candidates at strictly increasing positions, namely those preceded by at least the budget of their class |
| `Comparison.Decrement` | src/engine.rs:780-789 | uses up one unit of the key if there is one and changes no other count |
| `Comparison.SemanticDifference` | src/engine.rs:743-778 | the two passes compute the cancellation of the baseline with renames |
| `Comparison.SemanticLaw` | src/engine.rs:743-789 | per (path, key) exactly max(0, after - before - renamed before) survive |
| `Comparison.Canceller` | src/engine.rs:743-789 | every cancelled candidate has a baseline diagnostic of its class, directly or by rename |
| `Comparison.CancellerInjective` | src/engine.rs:743-789 | each baseline diagnostic cancels at most one candidate |
| `Comparison.PublicDifference` | src/engine.rs:413-426 | keeps exactly the candidates whose public fingerprint is not in the baseline |
| `Comparison.PublicPositions` | src/engine.rs:413-426 | namely those at strictly increasing positions, each of them once |
| `Renames.GroupPaths` | src/engine.rs:473-493 | removed and added paths are grouped by content, language and mode |
| `Renames.PathsListed` | src/engine.rs:473-493 | every removed and every added input is among them |
| `Renames.PairIdentity` | src/engine.rs:495-504 | pairs the sorted removed and added paths of one identity one to one |
| `Renames.ExactContentPathContinuity` | src/engine.rs:469-506 | the map holds exactly the pairs (t-th removed, t-th added) of each identity in path order |
| `Renames.PairedUnique` | src/engine.rs:469-506 | pairing is a partial bijection |
| `Renames.ContinuitySound` | src/engine.rs:469-506 | every pair goes from a removed to an added path of the same content, language and mode, and the map is injective |
| `Renames.ContinuityMaximal` | src/engine.rs:469-506 | the smaller side of every identity is paired entirely |
| `RenameInvariance.CandidatesCovered` | src/engine.rs:696-789 | if files are unchanged or renamed, the candidates of each class number at most its baseline and renamed baseline |
| `RenameInvariance.RenamesIntroduceNothing` | src/engine.rs:328-346 | if every after-file is unchanged or a paired rename, the introduced comparison reports nothing, overflow or not |
| `RenameInvariance.EvaluateIntroduced` | src/engine.rs:105-200 | from the inputs on, with the pairing of the code and for every schedule, the evaluation then fails or reports nothing |
| `IntroducedLaw.InputTold` | src/engine.rs:536-580 | an input fails with the failure of its baseline version, or of its candidate version if the baseline could be analyzed; it is covered exactly when it has a version and both could be |
| `IntroducedLaw.DiagnosticsFrom` | src/engine.rs:696-728 | the candidates and the baseline are the raw diagnostics of the covered inputs, with their rule, details, comparison key, path, fingerprint and position |
| `IntroducedLaw.IntroducedTold` | src/engine.rs:570-789 | from analyzer and inputs, unless a side overflows: each path and key reports max(0, diagnostics of the candidate version - of the baseline version - of the version renamed to the path) |
| `RenameInvariance.CandidatesAvoidRenamed` | src/engine.rs:469-506 | no candidate lies at a path that was renamed away |
| `RenameInvariance.CancelledOnce` | src/engine.rs:328-346 | in an assessment, two cancelled candidates are cancelled by two baseline diagnostics |
| `MemoryCache.MemoryFactCache.constructor` | src/cache.rs:82-100 | an empty cache is valid |
| `MemoryCache.MemoryFactCache.Get` | src/cache.rs:103-116 | returns the stored fact and counts a hit or a miss |
| `MemoryCache.MemoryFactCache.Put` | src/cache.rs:118-145 | refuses a conflicting value, ignores an oversized one, otherwise stores after evicting the shortest sufficient front of the queue; bytes equal the sum of sizes, the queue lists the keys once, both budgets hold |
| `MemoryCache.MemoryFactCache.MakeRoom` | src/cache.rs:130-139 | the eviction loop ends with room, never meets an empty queue, and evicts no more than needed |
| `MemoryCache.MemoryFactCache.EvictOldest` | src/cache.rs:133-138 | removes exactly the oldest entry |
| `MemoryCache.MemoryFactCache.Insert` | src/cache.rs:140-143 | appends the entry last |
| `PersistentCache.PersistentFactCache.Get` | src/cache.rs:211-222 | a hit is the decoded payload of an accepted file; anything else is a miss or a failed read |
| `PersistentCache.PersistentFactCache.Put` | src/cache.rs:224-238 | a valid fact already there decides between kept and conflict; otherwise the encoding is published unless too large or the publication fails |
| `FactLoad.Load` | src/facts.rs:14-36 | through either cache, whatever it holds, evicts or fails to do, the outcome is cancellation or the uncached analysis, and the latter when cancellation is not observed, as long as the hash does not collide on the keys of the questions asked; a loaded fact is then in the cache unless it is too large or cannot be published, and a fact in the cache is a hit |
| `FactLoad.LoadTwice` | src/facts.rs:25-35 | of two loads of one question the second hits, unless the fact is too large or cannot be published |
| `FactLoad.LoadAll` | src/facts.rs:14-46 | any sequence of uncancelled loads through one memory cache yields the uncached analyses in order, under the same condition |
| `FactLoad.TrustedAfterPut` | src/cache.rs:224-238 | publishing what analysis yields keeps every acceptable payload right |
| `FactLoad.RunKeepsTrust` | src/cache.rs:224-343 | in every state of a run whose writers write what analysis yields, whatever the interleaving, every acceptable payload is right |
| `FactLoad.HypothesesMet` | src/cache.rs:210-238 | these hypotheses can be met for every hash of the right width |
| `FactLoad.LoadAllFromDisk` | src/cache.rs:210-238 | so does any sequence through the disk cache, where the disk that each load meets is that of some state of a run of the publication protocol, and reads and publications may fail |
| `FactFile.WriteThenRead` | src/cache.rs:372-389 | reading an encoded (key, payload) within the size limit returns the payload |
| `FactFile.AcceptedIffEncoded` | src/cache.rs:186-207 | a file is accepted for a key with a payload exactly when it is byte for byte their encoding within the limit |
| `DiskProtocol.ReadersSeeTheRightPayload` | src/cache.rs:224-343 | in every interleaving with faults, crashes and corruption, if the writers of a key agree then every read is that payload or a miss, no writer reports NonDeterministic, and at most one process is in a locked section |
| `DiskProtocol.ReadersSeeAllowed` | src/cache.rs:224-343 | key by key and whatever happens at other keys, readers see only what the writers of the key may write |
| `DiskProtocol.LockedObjectsStable` | src/cache.rs:272-327 | while a process holds the lock, an object that is present is changed only by a step or an eviction of that process, or by corruption |
| `DiskProtocol.NoNewInvalid` | src/cache.rs:246-327 | only corruption makes an object invalid |
| `DiskProtocol.RemovesInvalidIffSeen` | src/cache.rs:600-614 | without corruption, what a repair is about to remove is invalid exactly when an object was present at its locked check |
| `DiskProtocol.RepairMayRemoveValid` | src/cache.rs:272-327 | for any two keys, a run without corruption in which a repair that saw nothing removes a valid fact |
| `DiskOutcomes.OutcomeTold` | src/cache.rs:224-361 | when a writer reports which outcome: stored by publishing over nothing or by finding its own fact, nondeterministic by finding another, contended at a held lock, failed when the file to repair is gone or the repaired one is not valid; only a publication or a removal changes an object |
| `DiskOutcomes.StepsForward` | src/cache.rs:224-327 | every step of a writer brings it closer to its end |
| `DiskOutcomes.EventPublishes` | src/cache.rs:240-327 | whoever newly counts as having published can read its payload then, and publication is not undone by anything that follows |
| `DiskOutcomes.StoredWasReadable` | src/cache.rs:224-343 | in every run, a writer that reports its fact stored was able to read it at some moment since it began |
| `DiskOutcomes.LoneWriter` | src/cache.rs:224-327 | an undisturbed writer stores its fact where there was none or, unless the lock is held, an invalid one; it keeps its own fact and refuses another; nothing else changes |
| `QuotaTrim.TrimShard` | src/cache.rs:565-579 | removes nothing within the limit; otherwise goes through the files oldest first for exactly as long as more than nine tenths of the limit is left |
| `QuotaTrim.RemoveOldest` | src/cache.rs:571-578 | the loop stops at the first point where the target is met, skipping files that cannot be removed |
| `QuotaTrim.GoneTold` | src/cache.rs:571-578 | of the files gone through exactly those go that can be removed |
| `QuotaTrim.OlderIsOrder` | src/cache.rs:569-569 | modification time, then path, is a strict weak order |
| `QuotaTrim.OlderTold` | src/cache.rs:569-569 | files of unknown age come first, then the earlier modified ones; files of one age by path |
| `QuotaTrim.BytesOf` | src/cache.rs:518-531 | the total size does not depend on the order of the scan |
| `ServerProtocol.OneLiveEvaluation` | src/protocol/server.rs:257-330 | in every run at most one evaluation is live, and while it is live the lifecycle is never active with another session than the one it was admitted with |
| `ServerProtocol.ActiveEnteredOnce` | src/protocol/server.rs:500-561 | the active state is entered at most once in a run |
| `ServerProtocol.InitializeAcceptedOnce` | src/protocol/server.rs:500-511 | at most one initialize request is accepted in a run |
| `ServerProtocol.AwaitingAfterInitialize` | src/protocol/server.rs:500-511 | a waiting server has accepted an initialize request with the baseline it waits for |
| `ServerProtocol.ActiveAfterHandshake` | src/protocol/server.rs:525-536 | an active server accepted an initialize on a fresh server and later a grant whose baseline canonically matches it |
| `ServerProtocol.EventAdvances` | src/protocol/server.rs:356-373 | no event takes the lifecycle back, and it becomes active only from waiting, by a matching grant |
| `ServerProtocol.EventSettles` | src/protocol/server.rs:209-354 | per event and id, replies plus requests in flight grow by one exactly when a request with that id is decoded |
| `ServerProtocol.EveryRequestAnsweredOnce` | src/protocol/server.rs:394-419 | in every run and for every id, replies plus requests in flight equal decoded requests; notifications and callback replies get none |
| `ServerProtocol.ShuttingDownIffStands` | src/protocol/server.rs:551-561 | the server is shutting down exactly when some shutdown request has not been followed by an initialized or baselineChanged notification |
| `ServerProtocol.ShutdownCancels` | src/protocol/server.rs:333-354 | in every run, while the server is shutting down every live evaluation is cancelled and none is admitted |
| `ServerProtocol.CleanExit` | src/protocol/server.rs:233-246 | exit is reported clean exactly then |
| `ServerEffects.EvaluateTold` | src/protocol/server.rs:257-299 | an idle active server admits the evaluation under its session, uncancelled and without a reply; a busy one answers that the id is in use or that it is unavailable; any other why it has no session |
| `ServerEffects.InitializeTold` | src/protocol/server.rs:500-511 | a fresh server that the provider accepts replies with success and waits with that baseline; the provider's failure, and a request to any other server, is refused |
| `ServerEffects.ShutdownTold` | src/protocol/server.rs:333-354 | a first shutdown cancels what is live and waits; the end of the wait is answered with success; a second one is refused |
| `ServerEffects.InitializedTold` | src/protocol/server.rs:525-561 | a waiting server becomes active with a session granted for a canonically equal baseline; anything else fails, and says whether a grant was accepted |
| `ServerEffects.BaselineTold` | src/protocol/server.rs:364-373 | an idle active server takes over the new baseline and keeps its grant; anything else fails |
| `ServerEffects.RestTold` | src/protocol/server.rs:233-246 | exit, unknown notifications, callbacks and unreadable frames change nothing but what they say |
| `ServerEffects.LiveTold` | src/protocol/server.rs:301-387 | an event ends a live evaluation only as its completion, keeps its session, and cancels it exactly when it names it or asks for shutdown |
| `ServerEffects.LiveSinceAdmission` | src/protocol/server.rs:257-387 | in every run a live evaluation goes back to one request on an idle active server, has been live since with the session of that moment, and is cancelled exactly when it was told to stop since |
| `ServerEffects.AnswerTold` | src/protocol/server.rs:301-330 | the reply to a finished evaluation carries its id and the result of the evaluation |
| `ServerEffects.HandshakeActivates` | src/protocol/server.rs:500-536 | an accepted initialize request on a fresh server and a later grant for its baseline, with no shutdown or lifecycle notification between, make the server active with the granted session |
| `ServerProtocol.ShutdownCanBeUndone` | src/protocol/server.rs:333-373 | two runs in which an out-of-order notification replaces the shutdown: exit is then unclean, and a second shutdown is accepted |
| `ServerProtocol.ServerObject.FailLifecycle` | src/protocol/server.rs:551-561 | the state fails with the error and remembers whether a grant was accepted |
| `ServerProtocol.ServerObject.RouteInitialize` | src/protocol/server.rs:248-255 | the object follows the state machine on initialize |
| `ServerProtocol.ServerObject.RouteEvaluate` | src/protocol/server.rs:257-299 | the object follows it on evaluate: invalid id, no session, duplicate, busy, or admitted |
| `ServerProtocol.ServerObject.CancelEvery` | src/protocol/server.rs:383-387 | every live token is cancelled, in whatever order they come |
| `ServerProtocol.ServerObject.RouteShutdown` | src/protocol/server.rs:333-354 | the object follows it on shutdown, up to the wait |
| `ServerProtocol.ServerObject.RouteInitialized` | src/protocol/server.rs:356-362 | the object follows it on initialized |
| `ServerProtocol.ServerObject.RouteBaselineChanged` | src/protocol/server.rs:364-373 | the object follows it on baselineChanged, which fails while an evaluation is live |
| `ServerProtocol.ServerObject.RouteCancel` | src/protocol/server.rs:375-381 | cancels the named evaluation if it is live and changes nothing else |
| `ServerProtocol.ServerObject.Serve` | src/protocol/server.rs:209-246 | one turn of the loop follows the state machine on every frame |
| `ServerProtocol.ServerObject.Finish` | src/protocol/server.rs:301-328 | the spawned evaluation leaves the live map |
| `ServerProtocol.ServerObject.ReplyTo` | src/protocol/server.rs:329-330 | its reply is sent |
| `ServerProtocol.ServerObject.FinishShutdown` | src/protocol/server.rs:348-354 | the end of the wait is answered |
| `ServerProtocol.ServerObject.Perform` | src/protocol/server.rs:301-419 | any event happens exactly when the state machine allows it, with its effect |
| `ServerProtocol.Drive` | src/protocol/server.rs:394-419 | under any schedule of frames, completions, replies and ends of waiting, the object's trace is a run, at most one evaluation is live and every request is answered once or in flight |
| `ServerProtocol.EveryRunPerformed` | src/protocol/server.rs:394-419 | every run of the state machine is a run of the object |
| `Framing.LinePrefixLen` | src/protocol/server.rs:607-612 | the prefix is one line, complete unless it is all of the input |
| `Framing.LinePrefixUnique` | src/protocol/server.rs:607-612 | it is the only such prefix |
| `Framing.JudgeExact` | src/protocol/server.rs:570-641 | which lines are frames (LF or CRLF), empty, oversize or unterminated |
| `Framing.Reader.ReadFrame` | src/protocol/server.rs:570-605 | however the input is chunked, one call yields the verdict on the first line (frame without CR, empty, oversize, unterminated, end) and leaves the input at the next line |
| `Framing.Reader.DiscardToNewline` | src/protocol/server.rs:614-629 | skips exactly the rest of the line |
| `Framing.Reader.FinishFrame` | src/protocol/server.rs:631-641 | drops the newline and one CR; an empty rest is an error |
| `Framing.Reader.ReadAll` | src/protocol/server.rs:394-419 | the sequence of frames and errors is that of the lines of the input |
| `Framing.OutcomesAppend` | src/protocol/server.rs:570-629 | after complete lines, whatever they were, the rest is judged as if alone |
| `Framing.WrittenThenRead` | src/protocol/server.rs:140-149 | each serialized message, one per line, is read back or judged oversize; all are read back exactly when every one is shorter than the frame limit |
| `Framing.WriteMessages` | src/protocol/server.rs:140-166 | the output is the messages with their newlines, those over the limit replaced by a notice |
| `Framing.ProviderMessagesRead` | src/protocol/server.rs:151-166 | what the provider's writer sends is read back exactly when no message has the maximal length and no notice reaches it |
| `Framing.HostMessageRead` | src/protocol/host.rs:535-539 | what the host's writer admits is read back exactly when it is not of the maximal length |
| `Framing.MaximalMessageRefused` | src/protocol/server.rs:151-155 | a message of exactly 8 MiB passes both writers and is refused by both readers |
| `Framing.Reader.HostReadFrame` | src/protocol/host.rs:910-942 | the host's reader gives the same verdict on the first line |
| `Framing.Reader.HostReadAll` | src/protocol/host.rs:890-908 | its results are the provider's up to and including the first error |
| `HookConfig.RemovalFilters` | src/hooks.rs:688-725 | removal drops exactly the owned handlers, keeps all others in order, and leaves other keys and events alone |
| `HookConfig.UnownedExact` | src/hooks.rs:704-710 | a handler survives exactly when no owned entry matches its matcher and value |
| `HookConfig.GroupSurvives` | src/hooks.rs:711-718 | a group is kept exactly when something is left in it or it has more than two keys |
| `HookConfig.AddInserts` | src/hooks.rs:668-686 | adding inserts one occurrence and changes no other |
| `HookConfig.EditCopies` | src/hooks.rs:402-420 | after an install's edit there is one copy of the handler, plus those that were there unless the prior entries own it |
| `HookConfig.RemoveAdded` | src/hooks.rs:668-725 | removing the handler just added equals removing it from the original, except for an empty hooks object |
| `HookConfig.AddRemoveRestores` | src/hooks.rs:668-725 | adding and removing gives the file back exactly when it was clean |
| `HookConfig.Document.Add` | src/hooks.rs:668-686 | the in-place edit computes the specified addition |
| `HookConfig.Document.Remove` | src/hooks.rs:688-725 | the in-place edit computes the specified removal |
| `HookInstall.HandlersTold` | src/hooks.rs:530-554 | the handler runs the binary on every tool that the older one ran on for the agent, and on shell commands and protocol tools besides |
| `HookInstall.RunCovers` | src/hooks.rs:402-433 | in every history of installs, uninstalls, crashes and edits, each handler the installer wrote that is still in the file is owned by the receipt on disk, unless a run meets an older receipt under another binary while its handler is left |
| `HookInstall.LegacyTakeover` | src/hooks.rs:556-568 | an install over a receipt without entries keeps this exactly when its binary is the one the receipt stands for or the handler is gone |
| `HookInstall.LegacyUninstall` | src/hooks.rs:422-433 | the same condition for an uninstall over such a receipt |
| `HookInstall.LegacyHandlerLost` | src/hooks.rs:534-542 | the file an older installer wrote for one binary: an install and an uninstall with another both leave its handler unowned |
| `HookInstall.JournalBound` | src/hooks.rs:447-453 | a journal has at most two entries exactly when there was at most one or the handler was already owned; it covers both |
| `HookInstall.RetriesConverge` | src/hooks.rs:402-453 | same-binary retries from a receipt of at most one entry never exceed two entries, and every published install has exactly one copy of the handler |
| `HookInstall.WedgedForever` | src/hooks.rs:556-568 | from a receipt of three entries no later run changes either file |
| `HookInstall.ThirdBinaryWedges` | src/hooks.rs:435-453 | a run of two interrupted installs with two further binaries that leads there |
| `HookInstall.InstallCompletes` | src/hooks.rs:402-420 | what an undisturbed install leaves in both files |
| `HookInstall.UninstallCompletes` | src/hooks.rs:422-433 | what an undisturbed uninstall leaves |
| `HookInstall.InstallWrites` | src/hooks.rs:402-420 | an undisturbed install writes the journal first, then the configuration, then the final receipt; what each of them holds |
| `HookInstall.UninstallWrites` | src/hooks.rs:422-433 | an undisturbed uninstall writes the configuration, and removes the receipt last |
| `HookInstall.UninstallRestores` | src/hooks.rs:477-488 | install then uninstall gives the configuration back exactly when there was none or it was clean |
| `HookInstall.EmptyListNotRestored` | src/hooks.rs:719-724 | a configuration with an empty list of groups comes back as an empty object |
| `HookEdits.PlainIff` | src/hooks.rs:465-475 | configurations compare equal exactly when they are the same JSON |
| `HookEdits.ChangeStops` | src/hooks.rs:455-475 | a run that finds the file changed since it was read stops and leaves the edit and the receipt in place; otherwise it goes on to write |
| `HookEdits.OnlyWritesChange` | src/hooks.rs:402-488 | nothing but an edit or the write after such a comparison changes the file, and that write is computed from what was read |
| `HookEdits.OverwritesWhatItRead` | src/hooks.rs:455-475 | in every history, what a run overwrites is what it read, unless an edit fell between its comparison and its write |
| `HookEdits.LateEditLost` | src/hooks.rs:455-463 | a run in which such an edit is lost |
| `HookInstall.Files.Install` | src/hooks.rs:402-420 | the sequence of writes, each of them, is that of the steps; a refused receipt changes nothing |
| `HookInstall.Files.Uninstall` | src/hooks.rs:422-433 | the same for removal |
| `Coverage.StatusesSum` | src/sense/dedup.rs:585-609 | the four status counts sum to the number of files |
| `Coverage.FingerprintCollector.Push` | src/analysis/dedup.rs:80-89 | collects up to 4096 callables and notes when there was one more |
| `Coverage.FingerprintCollector.Finish` | src/analysis/dedup.rs:91-102 | the facts of a file list, sorted, every callable found and are complete, or the first 4096 and are truncated |
| `Coverage.FingerprintCoverage` | src/sense/dedup.rs:478-493 | the pass for identical snapshots reports the reference coverage |
| `Coverage.CallableView` | src/sense/dedup.rs:495-545 | the full view reports the same coverage and holds, per class and sorted, exactly the callables within the request limit |
| `Coverage.CollectFile` | src/sense/dedup.rs:519-537 | admitting callables one by one keeps the first 200000 offered and flags the rest |
| `Coverage.SortGroups` | src/sense/dedup.rs:539-543 | every class is sorted by path, range and kind |
| `Coverage.LimitState.ObserveCallables` | src/sense/dedup.rs:196-216 | lists a file over a limit and adds what still fits |
| `Coverage.LimitState.ObserveRegions` | src/sense/dedup.rs:218-236 | admits the anchors of a file all or none within the request limit |
| `Coverage.SnapshotLimits` | src/sense/dedup.rs:173-194 | the tracker's callable total is that of the coverage, and it lists files at the request limit exactly when the coverage is truncated |
| `Duplicates.PathCounts` | src/sense/dedup.rs:682-692 | the map holds each path that occurs with how often it occurs |
| `Duplicates.GrowthExact` | src/sense/dedup.rs:694-703 | the selected paths are exactly those whose count grew |
| `Duplicates.SomePathGrew` | src/sense/dedup.rs:611-703 | if a class grew, some path's count grew |
| `Duplicates.CallableFindings` | src/sense/dedup.rs:611-680 | the first reportable classes within the limit with their counts and occurrences, and the flag exactly when one was left out |
| `Duplicates.NoReportWithoutGrowth` | src/sense/dedup.rs:611-680 | the view of a reported class grew, to two or more and on a changed path, and a changed occurrence is shown first |
| `Duplicates.ShowsChanged` | src/sense/dedup.rs:705-711 | among the five occurrences shown a changed one comes first if there is any |
| `Duplicates.BoundedShowsFirst` | src/sense/dedup.rs:641-711 | a finding shows min(5, n) of its n occurrences, the first by changed before unchanged, then path, range and kind, and flags exactly n > 5 |
| `Duplicates.ReportedAt` | src/sense/dedup.rs:611-680 | the findings are those of exactly the reportable classes, in the order of the classes |
| `Duplicates.FileGroups` | src/sense/dedup.rs:440-461 | groups hold exactly the renamed paths of the large enough files of each content |
| `Duplicates.IdenticalFileFindings` | src/sense/dedup.rs:381-438 | the first reportable contents within the limit with their counts and occurrences, the suppressed paths of all of them, and the flag |
| `Duplicates.FileReportedAt` | src/sense/dedup.rs:381-438 | the findings are those of exactly the reportable contents, in the order of the contents |
| `Duplicates.SuppressedExact` | src/sense/dedup.rs:397-406 | the suppressed paths are exactly the new copies of the reportable contents |
| `Duplicates.SuppressedAccountedFor` | src/sense/dedup.rs:381-438 | a suppressed path is a new copy in a reported class of identical files, unless some were left out |
| `DuplicateSearch.Search` | src/sense/dedup.rs:48-80 | from the snapshots on: file groups, views and findings as the definitions over the snapshots say, within one limit, in order, each with the first five of its occurrences; what is left out comes later in the order |
| `DuplicateSearch.ViewCounts` | src/sense/dedup.rs:495-545 | a view counts no more of a class, in all and per path, than the facts of the snapshot list, and the same per path if the same in all |
| `DuplicateSearch.UnlimitedIsWhole` | src/sense/dedup.rs:512-524 | if the request limit was not reached and no file with listed callables was skipped, nothing of any class is left out |
| `DuplicateSearch.CoverageTells` | src/sense/dedup.rs:585-609 | so if the coverage shows every file complete and the request limit not reached |
| `DuplicateSearch.GrowthIsAccounted` | src/sense/dedup.rs:611-703 | unless the after view leaves out some of it, a class of which the facts list more than before, two or more, on some changed path, is reported, flagged, or grew only on new copies in reported classes of identical files |
| `DuplicateSearch.FindingsAreGrounded` | src/sense/dedup.rs:611-703 | a finding states the number listed before, and is about growth on a changed path, exactly when the before view leaves nothing of its class out |
| `DuplicateSearch.EqualSnapshotsFindNothing` | src/sense/dedup.rs:126-148 | the full search of equal snapshots returns what the short pass returns, coverage included |
| `DuplicateLaws.StatusTold` | src/sense/dedup.rs:585-609 | which status a file counts under, from its two extractions and their sizes |
| `DuplicateLaws.TallyTold` | src/sense/dedup.rs:564-609 | the coverage counts the files, those under each status, and the callables offered, up to 200 000, with the flag exactly beyond |
| `DuplicateLaws.HeldTold` | src/sense/dedup.rs:495-545 | what a snapshot holds of a class, in all and on each path after renames, is the number of callables with that digest in its files of that family |
| `DuplicateLaws.GrowthTold` | src/sense/dedup.rs:694-703 | a class grew on a path exactly when the files hold more of its callables there than before; the changed paths are the requested ones after renames |
| `DuplicateLaws.CopiesTold` | src/sense/dedup.rs:381-461 | a content is reportable exactly when it has two or more copies of the minimal size, more than before, and one of them is new and on a changed path |
| `DuplicateLaws.FindingsUnexplained` | src/sense/dedup.rs:630-636 | the view of a reported class grew on some path that is not a new copy of a reportable content |
| `DuplicateLaws.ViewFrom` | src/sense/dedup.rs:495-545 | what a view holds of a class are callables of its files, with their ranges, kinds and lengths, in the order of path, range and kind |
| `DuplicateLaws.CopyShown` | src/sense/dedup.rs:411-422 | an occurrence of a file finding is a copy of the file, marked as changed exactly if its path is |
| `DuplicateLaws.CallableShown` | src/sense/dedup.rs:641-662 | an occurrence of a callable finding is one of the class in the after view, with its range and kind, marked in the same way |
| `DuplicateLaws.MovingFindsNothing` | src/sense/dedup.rs:44-80 | if the files were only moved as the renames say, in whatever order they are listed then, nothing is found, unless the view of the baseline leaves something out |
| `DuplicateSearch.IntroducedDuplicates` | src/sense/dedup.rs:44-80 | both laws, class by class, for the whole operation, and nothing for equal snapshots |
| `DuplicateLimits.CutBaselineReports` | src/sense/dedup.rs:520-524 | a baseline with 200 704 callables before a pair: every search that may return anything reports the pair although it was there before |
| `DuplicateLimits.CutAfterMisses` | src/sense/dedup.rs:520-524 | snapshots with 200 704 callables before a new pair: its growth is not accounted for |
| `DuplicateLimits.CrowdedBaselineReports` | src/sense/dedup.rs:512-517 | a file over the per-file limit that keeps two of its callables: every search that may return anything reports them as introduced, and no request flag says so |
| `DuplicateLimits.CrowdedAfterMisses` | src/sense/dedup.rs:512-517 | a file that goes from a pair to thousands of callables: the growth is not accounted for, and no request flag says so |
| `ReportOutput.Output.ShrinkCycleDetails` | src/sense/cli.rs:904-914 | clears members and witnesses with their flags; says so exactly when the size decreases |
| `ReportOutput.Output.ShrinkImpactSamples` | src/sense/cli.rs:916-924 | the same for impact samples |
| `ReportOutput.Output.ShrinkDuplicateOccurrences` | src/sense/cli.rs:926-934 | keeps one occurrence of each duplicate, flagged |
| `ReportOutput.Output.ShrinkObservations` | src/sense/cli.rs:956-982 | halves the last of the five lists that are longest, whichever it is, and flags it; fails exactly when all are empty |
| `ReportOutput.Output.ShrinkFindings` | src/sense/cli.rs:936-954 | halves the first of the interface, documentation, cycle and duplicate findings that has two, and flags it; fails exactly when none has |
| `ReportOutput.Output.ShrinkReport` | src/sense/cli.rs:894-902 | a round drops all details if there are any, else half of an observation list, else half of a list of findings; it decreases the size, every cut raises its flag exactly if something went, and it fails exactly when nothing is left to drop |
| `ReportOutput.Output.MarkOutputTruncated` | src/sense/cli.rs:984-997 | marks the report incomplete and explains it once |
| `ReportOutput.FitsTold` | src/sense/cli.rs:847-857 | the limit is 8 MiB for the text returned and for the serialized report with its newline |
| `ReportOutput.TooLargeTold` | src/sense/cli.rs:864-869 | the replacement is incomplete, gives one reason, and has nothing else and no other flag |
| `ReportOutput.Output.PrepareOutput` | src/sense/cli.rs:839-872 | always terminates; what it returns fits, text and serialized report; every report rendered before did not fit, and each is what one round makes of the one before, so that nothing is dropped that need not be; what is returned is the original apart from timing, or an incomplete flagged cut, or the replacement; it fails only if the replacement does not fit at its timing |
| `ReportOutput.Output.RenderAndEnforce` | src/sense/cli.rs:1306-1350 | enforcement passes exactly when the report fits as it is, is complete, has no findings unless they are advisory, and, if partial, no file changed or partial reports are allowed or node built-ins are and no other gap count is positive; the report was then rendered whole |
| `LineIndex.StartsExact` | src/analysis/line_index.rs:8-17 | line starts are exactly zero and the positions after a CR, LF or CRLF |
| `LineIndex.StartsIncrease` | src/analysis/line_index.rs:8-17 | they strictly increase |
| `LineIndex.Advance` | src/analysis/line_index.rs:47-59 | one step skips a terminator whole |
| `LineIndex.SharedStarts` | src/analysis/line_index.rs:8-17 | the shared index has the reference starts |
| `LineIndex.PythonStarts` | src/analysis/python.rs:192-218 | the Python line map has the same |
| `LineIndex.HclAgrees` | src/analysis/hcl.rs:258-279 | the HCL chain yields the same |
| `LineIndex.EvidenceStarts` | src/sense/dedup/regions/evidence.rs:124-132 | the region evidence index has the same |
| `LineIndex.PositionTold` | src/analysis/line_index.rs:19-31 | a position names the line that holds the offset, the column on it and the byte after the base; beyond the source it is that of its end |
| `LineIndex.OffsetInvertsPosition` | src/analysis/hcl.rs:281-312 | for offsets within the source, offset inverts position exactly when line and column fit 32 bits |
| `LineIndex.OffsetInvertsBelowBound` | src/analysis/hcl.rs:281-312 | in particular below the 32-bit bound |
| `LineIndex.OffsetInvertsInSource` | src/analysis/hygiene.rs:9-16 | so always in a source within the size limit |
| `LineIndex.OffsetTold` | src/analysis/hcl.rs:303-312 | lines and columns count from one and zero stands for one; columns end at the end of the source, and lines beyond the last lie there |
| `LineIndex.PositionInvertsOffset` | src/analysis/hcl.rs:303-312 | a line and a column on it map to an offset with that line and column |
| `LineIndex.ContentTold` | src/analysis/hygiene.rs:36-121 | the content of a line goes from its start, after a byte order mark on the first line, to the next CR or LF or the end; it is too long exactly when it has more bytes than the limit |
| `LineIndex.LongLinesTold` | src/analysis/hygiene.rs:87-121 | the long lines are listed once, in order, with their content |
| `LineIndex.CheckLine` | src/analysis/hygiene.rs:87-121 | refuses a line over the hard limit and notes one over the configured limit, a byte order mark apart |
| `LineIndex.ScanLines` | src/analysis/hygiene.rs:9-71 | the line count is the number of starts, less one if the last is the end of file; long lines are listed in order; the file is refused exactly when too large or at its first line over the hard limit |
| `Bytes.DecodeEncode` | src/cache.rs:457-472 | a big-endian number that fits its width is read back |
| `Bytes.EncodeDecode` | src/cache.rs:457-472 | and bytes are written back |
| `DigestFraming.HashDomain` | src/identity.rs:66-76 | the hasher is fed the product tag and length-prefixed fields |
| `DigestFraming.FramedInjective` | src/identity.rs:66-76 | equal frames have equal domains and equal parts |
| `DigestFraming.FactKeyInjective` | src/identity.rs:97-107 | unless the hash collides on the two inputs concerned, keys are equal exactly when content, mode, options and ABI are |
| `SnapshotIdentity.SnapshotId` | src/source/snapshot.rs:16-45 | the identity is the framed digest of the manifest |
| `SnapshotIdentity.ManifestInjective` | src/source/snapshot.rs:16-45 | manifests are uniquely decodable |
| `SnapshotIdentity.SnapshotIdentifiesFiles` | src/source/snapshot.rs:16-45 | unless the hash collides on the two manifests, snapshots have one identity exactly when they list the same paths, languages, modes and contents |

## Left out

- Machine widths of counters: `usize` and `u64` totals (files, bytes, hits, ids) are unbounded here, so their saturation is not modelled; the 64-bit rolling hash and the 32-bit positions are exact.
- SHA-256, the token hash, JSON serialization and rendering are function parameters; where a property needs it, the hash is assumed not to collide on the inputs concerned, and token hashes are arbitrary.
- Parsers and language analysis: facts are an arbitrary function of content, mode and options.
- File-system errors, permissions and symbolic links: a failed step of a cache writer is the event `Fault`, and the hook files are written whole or not at all.
- ServerProtocol.EveryRequestAnsweredOnce: assumes that the outbound writer stays open, as the replies of a closed writer are dropped; the wait of a shutdown may end at any time, since the clock is not modelled.
- HostClient's pending map: replies to callbacks are accepted and leave the lifecycle and the replies to requests alone; which waiting callback they reach is not modelled.
- `decode_incoming` field by field: a frame is undecodable or decodes to one of the calls; only that decoded requests carry valid ids is used.
- DiskProtocol.ReadersSeeTheRightPayload: one shard with one lock, as in `FactLoad.LoadAllFromDisk`.
- FactLoad.Load: cancellation is observed at fixed moments given as inputs.
- Evidence.FactsReadBack: for at most 2^32 - 1 counted tokens, which the 4 MiB source limit implies; base64 is left out.
- Framing.Reader.ReadFrame: read errors of the underlying stream are not modelled.
- HookConfig.Document.Add: configurations are those that `validate_hook_groups` admits, so its error branches cannot occur; keys that the installer does not read are opaque.
- HookInstall.RunCovers: an edit may remove or reorder the installer's handlers but not move them to another matcher.
- DuplicateSearch.FindingsAreGrounded: what a snapshot holds is what the facts of its files list; callables that an extractor dropped beyond 4096 are not in them.
- DuplicateSearch.IntroducedDuplicates: the token-region search that follows, and the class names in findings; facts are looked up beforehand.
- LineIndex.ScanLines: messages and anchors of the diagnostics are left out.
- Region comparison (the cache of decoded evidence, matching and extending anchors), the dependency graph and resolver, policy, documentation, Git capture, native process handling and the command line.
