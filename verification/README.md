# Model of the memory layer and three small stateful services

A Dafny project that models and proves the behaviour of the memory layer: distillation of experience records into
patterns, the governed long-term store with its audit log and vector index, the write pipeline in front of it,
short-term memory with its rolling summary, retrieval and access policy, and the refresh lock of the knowledge index.
Beside it stand the credential vault, the streaming reader of a model pull, and the logger.

`dafny verify dfyconfig.toml` checks everything.

## How the model is made

- One module per component. Code that updates state step by step is a class or a method with loops, proved against a
  function that specifies it (`Step`, `Persisted`, `PassOver`, `SweepOver`, ...); the properties are lemmas about those
  functions, over every input, every run and every fault.
- Ids are natural numbers, in collation order for entries and in order of issue where a factory draws them; for
  identifiers of one fixed shape `localeCompare` is a total order. A moment is a number of milliseconds; timestamps of
  one fixed shape compare alike. The SHA-256 digest is a free constructor, so equal digests mean equal contents. Strings
  are sequences of characters, one for a UTF-16 unit; surrogates, paired or alone, are left out.
- The verdicts of evaluators, policies and guards, the clock, fresh ids, and the places where storage fails are inputs
  of a call. A run is a sequence of calls with those inputs, so a statement about all runs covers all faults.
- A call is a sequence of writes that may stop after any of them; between its writes no other call takes place. The
  refresh lock is cut at its awaits into steps that interleave freely.
- `Distillation`: the records of a pass come from one query. The lifecycle settings are any numbers, as the engine does
  not parse them. Observers are fault points where their errors are not caught. The pattern's text and its evidence
  references, beyond their number, are not represented.
- `SharedStore` runs the governed runtime, the submissions of the pipeline and the distillation engine on one store and
  one log. A promotion appends its record when the engine has a sink to that log; a reversal leaves that to its caller.
- `StmStore`: the compaction policy satisfies its schema (`self/shared/src/types/memory.ts:351-374`): the target is
  below the maximum, and 1 <= retained entries < minimum entries.
- `CredentialVault`: a call is its list of writes and the number of them that succeed. Ids, keys and secrets are refused
  when empty, as their schema asks (`self/shared/src/types/app-credentials.ts:45-64`); an empty secret has an empty
  ciphertext. A secret stands for its ciphertext; the drawn part of a backup reference is an input.
- `PullStream`: how one line is parsed and judged is a parameter; the decoder's flush holds no newline.

## What the code does not do

Some natural expectations are false of the code. For each the project holds a lemma with the input, or the kind of
input, for which they fail, and the exact condition.

- Project clusters are listed in the order in which projects first appear. The comment in
  `self/memory/distillation/src/clustering.ts:13-15` promises the same output for the same input, which holds for equal
  lists; the order of the clusters still depends on the order of the input
  (`Clustering.ProjectOrderDependsOnInput`, `Clustering.ProjectOrderExact`).
- The confidence test at 0.6 is passed from 0.595 on (`Promotion.RoundingLetsThrough`, `Promotion.ConfidentExactly`).
  The nine aligned records that valid settings ask for are not asked for by the engine itself, which does not parse them
  (`Promotion.FiveUnderLooseSettings`, `Promotion.PromotionNeedsAligned`).
- A promotion that fails is not always undone: an observer that throws right after the pattern write, or before the
  compensation, leaves the pattern (`Distillation.PatternIsStranded`, `Distillation.PromotionIsAtomic`).
- Reversal reactivates the sources of a pattern whatever has become of them since, deleted ones included
  (`Distillation.ReversalRevivesDeleted`, `Distillation.ReversalRevivesExactly`, `Distillation.RoundTrip`), and they are
  retrieved again (`SharedStore.DeletedIsRetrievedAgain`, `SharedStore.HiddenExactly`).
- A hard delete of an entry that was hard-deleted before names a new tombstone with the hash of the redaction text
  (`GovernedLtm.SecondHardDeleteRenamesTombstone`, `GovernedLtm.HardDeleteBuriesWhatItFinds`). Nor is hard-deleted a
  final status: a later soft delete changes it (`GovernedLtm.SoftDeleteAfterHardDelete`,
  `GovernedLtm.SoftDeleteOverHardDelete`). Final under the runtime are non-activity and the redaction.
- A call that throws or reports failure may have changed data: it stopped between its writes, or lost only its audit
  record (`GovernedLtm.HalfSupersession`, `GovernedLtm.LostRecordLeavesEntry`, `GovernedLtm.UnappliedCallExactly`,
  `GovernedLtm.BrokenMutationExactly`). The same goes for a compaction (`MwcPipeline.CompactionWithoutRecord`,
  `MwcPipeline.UnappliedCompactionExactly`).
- A mutation id used twice replaces its audit record (`GovernedLtm.ReusedIdReplacesRecord`, `GovernedLtm.AuditComplete`).
- Truncation to a budget that is not positive drops results that would cost nothing (`Retrieval.EmptyResultIsDropped`,
  `Retrieval.EmptyBudgetExactly`); the query schema does not let such a budget through.
- The policy engine does not look at a target without a policy (`AccessPolicy.SecondTargetIsNotChecked`,
  `AccessPolicy.AccountsForAllExactly`); the builder of retrieval contexts never makes such a context
  (`AccessPolicy.BuiltContextCovers`).
- A store reopened with another compaction policy can hold less summary than its budget
  (`StmStore.PolicyChangeLosesText`, `StmStore.SummaryIsFullExactly`). Under one policy this cannot happen even when
  budgets grow (`StmStore.OnePolicyRefinesTranscript`).
- Vault keys of two applications collide when one id extends the other by a colon
  (`CredentialVault.CollisionBreaksIndex`, `CredentialVault.IndexAgreesExactly`).
- A vault call that fails between its writes leaves entry and index apart until a later call settles them
  (`CredentialVault.TornStore`, `CredentialVault.TornRevoke`, `CredentialVault.AgreesExactly`). Repeating a torn store,
  restore or purge completes it; repeating a torn revocation does not, but a store under the key does
  (`CredentialVault.StoreMends`). A purge does not find what a torn store left
  (`CredentialVault.TornStoreSurvivesPurge`).

## Model

| member | source | states |
|---|---|---|
| Clustering.IdentifyClusters | self/memory/distillation/src/clustering.ts:101-121 | for any list of records, the strategy switch with its nested loops computes the recursive specification of the clusters; the semantic strategy is the project one |
| Clustering.ClustersOfDistinct | self/memory/distillation/src/clustering.ts:101-121 | where no id repeats, as in what the store yields, that specification is the simple one the other lemmas are about |
| Clustering.GreedyUsesEachIdOnce | self/memory/distillation/src/clustering.ts:62-81 | whatever the input, even with repeated ids: the tag groups hold input records only, use every id of the input, and each exactly once |
| Clustering.ClusterByTag | self/memory/distillation/src/clustering.ts:55-95 | the loops over a used set form, for any list, exactly the groups of the greedy recursion: the least unused record seeds, the next ones that overlap with it join while there is room, and an id that was used is passed over |
| Clustering.ClusterByProject | self/memory/distillation/src/clustering.ts:17-49 | the map of lists, sorted and cut into chunks, yields for each project in order of first appearance its sorted records in runs of the maximum size |
| Clustering.CollectGroup | self/memory/distillation/src/clustering.ts:66-81 | the inner loop picks exactly what the greedy choice from the unused records picks, and marks exactly the ids of its group as used |
| Clustering.TagGroupsPartition | self/memory/distillation/src/clustering.ts:62-93 | every record ends up in exactly one tag group (as multisets) |
| Clustering.GroupsPartition | self/memory/distillation/src/clustering.ts:17-95 | the groups of either strategy, before the size filter, partition the records |
| Clustering.ClustersSound | self/memory/distillation/src/clustering.ts:17-121 | clusters are within the size bounds, hold only input records that are active or hard-deleted, share no record, and hang together: tag clusters through enough tags in common with their first record, project clusters through the project |
| Clustering.GroupedExactly | self/memory/distillation/src/clustering.ts:105-108 | exactly the records that are neither superseded nor soft-deleted end up in a group |
| Clustering.ClusteredExactly | self/memory/distillation/src/clustering.ts:82-93 | a cluster is a group that reaches the minimum size, and nothing else |
| Clustering.GroupsInIdOrder | self/memory/distillation/src/clustering.ts:30-36 | every group, of either strategy, lists its records by id |
| Clustering.TagGroupsGreedy | self/memory/distillation/src/clustering.ts:64-81 | a group that is not full has taken everything that overlaps with its seed: no later group holds such a record |
| Clustering.TagGroupsFirstCome | self/memory/distillation/src/clustering.ts:62-81 | first come, first served: a group is opened by the least record left, and a record that overlaps with its seed went to a later group only because the group was full of records before it |
| Clustering.TagGroupsOfConfig | self/memory/distillation/src/clustering.ts:55-81 | the same for the groups of a configuration, whose overlap is one tag unless it says otherwise |
| Clustering.ChunksAreFull | self/memory/distillation/src/clustering.ts:33-36 | the chunks of a project are consecutive pieces of its sorted records, all but the last of the maximum size |
| Clustering.KeysByFirstAppearance | self/memory/distillation/src/clustering.ts:21-32 | a project is listed before those that first appear after it |
| Sorting.SortIsStable | self/memory/distillation/src/clustering.ts:60 | sorting keeps the order of records that tie, which for repeated ids decides who comes first |
| Clustering.ClustersCanonical | self/memory/distillation/src/clustering.ts:13-15 | any permutation of the input gives the same clusters, and for tags the same list of clusters |
| Clustering.ProjectOrderExact | self/memory/distillation/src/clustering.ts:21-33 | the project strategy lists the clusters in the same order for two permutations if and only if the projects that own a cluster first appear in the same order |
| Clustering.ProjectOrderDependsOnInput | self/memory/distillation/src/clustering.ts:21-33 | two orders of the same four records for which the lists of project clusters differ: equal lists give equal clusters, but the order of the input decides the order of the clusters |
| Clustering.GroupsSurvive | self/memory/distillation/src/clustering.ts:17-95 | clustering again after whole groups were removed gives exactly the groups that were left |
| Promotion.ComputeInitialConfidence | self/memory/distillation/src/confidence.ts:24-45 | the tallying loop computes a confidence that measures the records: 0 below the signal minimum, else the rounded share of the largest of the three tallies |
| Promotion.ClassesTallied | self/memory/distillation/src/production-signal-analysis.ts:14-28 | the three classes count the records of both positive strengths, of both negative strengths, and the neutral ones |
| Promotion.ConfidenceMeasures | self/memory/distillation/src/confidence.ts:24-45 | below the signal minimum 0; else, rounded to hundredths with ties upward, the largest of the three tallies as a share of the number of records or of the volume setting, whichever is greater |
| Promotion.AnalysisExactly | self/memory/distillation/src/production-signal-analysis.ts:45-76 | counts, contradiction, staleness, trace ids and the number of evidence references, from the sentiments, touch times and traces of the records |
| Promotion.EvaluateProductionPromotion | self/memory/distillation/src/production-guards.ts:36-100 | the guard with its accumulated reason codes decides as the tier-free specification; promotion carries no flag and no error; every error and every reason code appears exactly when it applies |
| Promotion.DecisionExactly | self/memory/distillation/src/production-guards.ts:36-100 | for any lifecycle settings: a cluster with sentiments of both signs is rejected if neither side reaches the dominance share, else held; a cluster is promoted if and only if it is not mixed, was touched recently, has the medium signal count, and a confidence that clears the retirement threshold and either 0.6 or the high tier; everything else is held |
| Promotion.PromotedUnderSchema | self/memory/distillation/src/production-guards.ts:69-82 | for settings that meet their schema: promoted if and only if not mixed, touched recently, with the medium signal count and a confidence of at least 0.6 |
| Promotion.ConfidentExactly | self/memory/distillation/src/production-contracts.ts:183-207 | rounding lowers the bar: the confidence is at least 0.6 if and only if there are enough signals and the largest class is at least 0.595 of both the records and the volume setting |
| Promotion.RoundingLetsThrough | self/memory/distillation/src/production-contracts.ts:183-207 | a promoted cluster under valid settings whose largest class is less than six tenths of the volume setting |
| Promotion.PromotionNeedsAligned | self/memory/distillation/src/confidence.ts:24-45 | for any settings with a positive volume setting, a promoted cluster has at least (min(0.6, high threshold) - 0.005) times that setting of records of one sign |
| Promotion.PromotionNeedsNineAligned | self/memory/distillation/src/confidence.ts:24-45 | under the schema that is nine records of one sign |
| Promotion.FiveUnderLooseSettings | self/memory/distillation/src/distillation-engine.ts:114-115 | settings the engine takes unparsed under which five records are promoted |
| Promotion.AlignedAreEnough | self/memory/distillation/src/confidence.ts:24-45 | recently touched records of one sign that meet the minima and are at least six tenths of the volume setting are promoted |
| Promotion.DecisionIsMonotone | self/memory/distillation/src/production-signal-analysis.ts:40-76 | what is not promoted now is promoted at no later moment |
| Distillation.DistillationEngine.PersistPromotion | self/memory/distillation/src/distillation-engine.ts:302-365 | write, mark, audit and the compensation leave exactly the specified entries and outcome at every fault |
| Distillation.DistillationEngine.RestoreSources | self/memory/distillation/src/distillation-engine.ts:343-353 | the compensation loop reactivates exactly the sources that point at the pattern, as far as it gets |
| Distillation.DistillationEngine.HandleCluster | self/memory/distillation/src/distillation-engine.ts:147-158 | one cluster of a pass: the draft and decision, and the promotion when the decision says so |
| Distillation.DistillationEngine.PromoteClusters | self/memory/distillation/src/distillation-engine.ts:147-158 | the loop of a pass computes the specified result over the given clusters |
| Distillation.PromotedPatternIsSound | self/memory/distillation/src/distillation-engine.ts:221-252 | the pattern of a promoted cluster describes it, field by field: the project of its first record, its records in order, exactly their tags, and the confidence measured from its sentiments; it can be stored, and under valid settings has a confidence of at least 0.6 |
| Distillation.DistillationEngine.RunDistillationPass | self/memory/distillation/src/distillation-engine.ts:142-165 | the loop over the clusters of the queried records computes the specified pass: patterns created, ids superseded, entries, and whether it threw |
| Distillation.PatternIsStored | self/memory/distillation/src/distillation-engine.ts:142-165 | every pattern a pass reports, be it completed or thrown, was made from a promoted cluster, describes it, and stands in the store; the records of the cluster are superseded by it and otherwise as they were |
| Distillation.PromotedHasPattern | self/memory/distillation/src/distillation-engine.ts:142-165 | a completed pass reports a pattern for every promoted cluster |
| Distillation.PassStoresPatterns | self/memory/distillation/src/distillation-engine.ts:123-252 | after a pass over what the store holds: a reported pattern is stored and describes records that were active experience records of the asked project, not mixed and recently touched; by project all of them are of its project, by tag the first is |
| Distillation.SupersededAreSources | self/memory/distillation/src/distillation-engine.ts:147-158 | the ids reported as superseded are the sources of the reported patterns, in turn |
| Distillation.PromotionIsAtomic | self/memory/distillation/src/distillation-engine.ts:302-365 | for every fault point of storage and observers: the promotion is all or nothing, up to touch times, if and only if it failed before the pattern write, did not fail, or was compensated in full; otherwise the pattern stays behind |
| Distillation.PromotionApplies | self/memory/distillation/src/distillation-engine.ts:306-333 | a promotion that goes through adds the pattern, marks its sources and changes nothing else |
| Distillation.PatternIsStranded | self/memory/distillation/src/distillation-engine.ts:306-326 | an observer that throws right after the pattern write leaves the pattern beside the active record it was made from |
| Distillation.RollbackExact | self/memory/distillation/src/distillation-engine.ts:343-354 | a finished rollback restores the earlier entries up to touch times if and only if every marked source was active without a successor |
| Distillation.RestoredTouch | self/memory/distillation/src/distillation-engine.ts:343-353 | a compensation touches the sources it restores at successive readings of the clock |
| Distillation.PassReachesFixpoint | self/memory/distillation/src/distillation-engine.ts:142-165 | after a pass that did not throw, a second one at any later time creates no pattern, supersedes nothing and leaves the store as it is, for every strategy and whatever fails; it completes if and only if its decisions are recorded |
| Distillation.PassSelection | self/memory/distillation/src/distillation-engine.ts:123-135 | a completed pass takes exactly the records of the promoted clusters out of the next selection and leaves the other selected entries alone |
| Distillation.TakenWholeGroups | self/memory/distillation/src/distillation-engine.ts:147-158 | what a pass takes is a union of whole groups of the partition |
| Distillation.FailedPassKeepsWholePromotions | self/memory/distillation/src/distillation-engine.ts:142-165 | a pass that throws leaves, up to touch times, the store of a completed pass over the clusters before the failing one |
| Distillation.ThrownPassIsACompletedShorterPass | self/memory/distillation/src/distillation-engine.ts:123-165 | the same for every pass over what the store holds, given fresh pattern ids and active entries without successor |
| Distillation.DistillationEngine.ReverseSupersession | self/memory/distillation/src/supersession-reversal.ts:27-88 | the reversal computes the specified entries, its errors change nothing, and an interrupted one stops where storage failed |
| Distillation.ReversalRefusedExactly | self/memory/distillation/src/supersession-reversal.ts:34-46 | a reversal is refused exactly for an id that names no pattern, and for a pattern without sources |
| Distillation.ReverseContents | self/memory/distillation/src/supersession-reversal.ts:47-65 | reversal makes every source active without successor, retires the pattern, and changes nothing else |
| Distillation.ReversalTouches | self/memory/distillation/src/supersession-reversal.ts:47-65 | the sources are made active at successive readings of the clock, in the order of the list, and the pattern is touched last |
| Distillation.UniqueInOrder | self/memory/distillation/src/supersession-reversal.ts:39 | that list names each source id once, in order of first appearance |
| Distillation.RoundTrip | self/memory/distillation/src/supersession-reversal.ts:34-65 | promote then reverse gives a source back its earlier value but for the touch time if and only if nothing but status, successor and touch time changed in between; the pattern ends non-active |
| Distillation.UndisturbedRoundTrip | self/memory/distillation/src/supersession-reversal.ts:34-65 | straight after a promotion, reversal restores every entry up to touch times and leaves the retired pattern |
| Distillation.ReverseTwice | self/memory/distillation/src/supersession-reversal.ts:34-65 | reversing again changes touch times only |
| Distillation.RepeatingCompletes | self/memory/distillation/src/supersession-reversal.ts:47-82 | a reversal interrupted at any write, or by its observer, is completed, up to touch times, by repeating it |
| Distillation.ReversalRevivesExactly | self/memory/distillation/src/supersession-reversal.ts:47-57 | reversal brings a deleted entry back if and only if the pattern names a deleted entry among its sources |
| Distillation.ReversalRevivesDeleted | self/memory/distillation/src/supersession-reversal.ts:47-57 | a record that was soft-deleted after its promotion is active again after the reversal |
| Distillation.ReversedClusterPromotesAgain | self/memory/distillation/src/distillation-engine.ts:142-165 | a reversal does not last: the restored cluster is promoted again unless its latest touch is aging |
| LtmStore.Store.MarkSuperseded | self/memory/ltm/src/document-ltm-store.ts:112-130 | marks exactly the listed entries that exist, up to the write that fails |
| LtmStore.Store.Query | self/memory/ltm/src/document-ltm-store.ts:81-102 | for every filter: refuses one that does not parse, else returns the page that limit and offset cut out of the matching entries, each listed once in touch order with ties by id |
| LtmStore.MatchingEntries | self/memory/ltm/src/document-ltm-store.ts:88-98 | the filtered and sorted entries: exactly those that match, each once, in touch order |
| LtmStore.MatchingIsUnique | self/memory/ltm/src/document-ltm-store.ts:296-301 | there is only one such list |
| LtmStore.LeftOutExactly | self/memory/ltm/src/document-ltm-store.ts:309-365 | an entry does not match exactly when one field of the filter speaks against it; without a status, retired entries are left out but for the kinds asked for |
| LtmStore.PageExactly | self/memory/ltm/src/document-ltm-store.ts:99-101 | a page is the beginning of what the offset leaves, as long as the limit allows, and stops short only there |
| LtmStore.OldestFirst | self/memory/ltm/src/document-ltm-store.ts:296-301 | touch order starts with the oldest touch, ties by id |
| LtmStore.SelectedExactly | self/memory/distillation/src/distillation-engine.ts:123-135 | what a pass reads are all active experience records, of the given project if there is one |
| LtmStore.PagingListsAll | self/memory/ltm/src/document-ltm-store.ts:99-101 | paging from any offset on, with any page size, lists the rest of the matches, each once and in order |
| GovernedLtm.GovernedTypedLtmRuntime.WriteEntry | self/memory/ltm/src/governed-typed-ltm-runtime.ts:171-293 | the write carries out its specified step on entries, audit log, index and ids, with every verdict and fault |
| GovernedLtm.GovernedTypedLtmRuntime.MutateEntry | self/memory/ltm/src/governed-typed-ltm-runtime.ts:295-408 | the mutation carries out its specified step, including the failure record of a call that breaks |
| GovernedLtm.GovernedTypedLtmRuntime.ApplyMutation | self/memory/ltm/src/governed-typed-ltm-runtime.ts:410-553 | each action changes entries and tombstones as specified, or breaks where the code throws |
| GovernedLtm.GovernedTypedLtmRuntime.PersistCandidate | self/memory/ltm/src/governed-typed-ltm-runtime.ts:555-627 | index first, store second, and the vector taken out again when the store refuses |
| GovernedLtm.GovernedTypedLtmRuntime.NextAuditSequence | self/memory/ltm/src/document-ltm-store.ts:219-225 | one more than the largest sequence number in the log |
| GovernedLtm.StepIsSound | self/memory/ltm/src/governed-typed-ltm-runtime.ts:424-553 | every call under every fault keeps: a successor exists and was issued later, active entries have none, tombstone references resolve; and entries only evolve |
| GovernedLtm.RunIsSound | self/memory/ltm/src/governed-typed-ltm-runtime.ts:171-553 | the same over every run |
| GovernedLtm.LifecycleOverRuns | self/memory/ltm/src/governed-typed-ltm-runtime.ts:424-553 | between any two points of a run: no retired entry becomes active, a successor stays, and content is what it was or redacted with the hash of what it was on a tombstone |
| GovernedLtm.LatestVersion | self/memory/ltm/src/governed-typed-ltm-runtime.ts:468-474 | following successors terminates at a later or equal entry that has none and is not superseded |
| GovernedLtm.HardDeleteBuriesWhatItFinds | self/memory/ltm/src/governed-typed-ltm-runtime.ts:487-520 | after a hard delete the tombstone the entry names holds the hash of the original content if and only if the content was still the original |
| GovernedLtm.SecondHardDeleteRenamesTombstone | self/memory/ltm/src/governed-typed-ltm-runtime.ts:496-520 | a run after which the tombstone an entry names holds the hash of the redaction text |
| GovernedLtm.BrokenMutationExactly | self/memory/ltm/src/governed-typed-ltm-runtime.ts:349-407 | a mutation that breaks leaves entries, tombstones and vectors as they were if and only if it does not break between its two writes or with a stuck vector |
| GovernedLtm.WriteStoresCandidate | self/memory/ltm/src/governed-typed-ltm-runtime.ts:247-292 | a write that applied stored an active entry with everything the candidate asks for, in the project of the call or the candidate, and indexed its content |
| GovernedLtm.SupersedeLinks | self/memory/ltm/src/governed-typed-ltm-runtime.ts:440-480 | a supersession that applied changed of the previous version, an active versioned entry, only status, successor and touch; the replacement carries what the candidate asks for, with its own mutability class if it brings one and the project of the request or else of the previous version; other entries stay |
| GovernedLtm.ImmutableReplacementStays | self/memory/ltm/src/governed-typed-ltm-runtime.ts:457-492 | a replacement that is to be evidence-immutable or a deletion tombstone is so: whatever happens later, it keeps its content and a hard delete of it breaks |
| GovernedLtm.CreateAdds | self/memory/ltm/src/governed-typed-ltm-runtime.ts:424-439 | a creation that applied adds one entry with everything the candidate asks for, and its vector |
| GovernedLtm.SoftDeleteHides | self/memory/ltm/src/governed-typed-ltm-runtime.ts:481-526 | a soft delete that applied rewrites status, deletion time, tombstone reference and touch of its target, keeps its content, and changes nothing else |
| GovernedLtm.HardDeleteRedacts | self/memory/ltm/src/governed-typed-ltm-runtime.ts:481-526 | a hard delete that applied had a target of neither protected class; it redacts the target and adds one tombstone with its id, content hash, mutation, project and time, and changes nothing else |
| GovernedLtm.MoveRelocates | self/memory/ltm/src/governed-typed-ltm-runtime.ts:527-549 | a move that applied rewrites scope, project, placement and touch of its target, and changes nothing else |
| GovernedLtm.MutationIsApplied | self/memory/ltm/src/governed-typed-ltm-runtime.ts:295-390 | the request is carried out with the project of its target if it names none, under its own id or the next one, at its own moment or the present one |
| GovernedLtm.CallAppliesExactly | self/memory/ltm/src/governed-typed-ltm-runtime.ts:171-408 | a write applies if and only if it is a fact or preference, nobody objects, and neither entry nor record is lost; a mutation if and only if it is approved, its target and candidate allow the action, and no write and not the record is lost |
| GovernedLtm.CallThrowsExactly | self/memory/ltm/src/governed-typed-ltm-runtime.ts:171-408 | a write throws if and only if it is of another kind, the record it leaves is lost, or it is admitted and its entry is lost; a mutation if and only if the last record it tries to leave is lost |
| GovernedLtm.PromoteThenDemote | self/memory/ltm/src/governed-typed-ltm-runtime.ts:528-549 | moving a project entry to global scope and back restores it if and only if the demotion names its project |
| GovernedLtm.SoftDeleteOverHardDelete | self/memory/ltm/src/governed-typed-ltm-runtime.ts:510-520 | a soft delete of a hard-deleted entry changes its status and clears its tombstone reference; the content stays redacted |
| GovernedLtm.SoftDeleteAfterHardDelete | self/memory/ltm/src/governed-typed-ltm-runtime.ts:496-520 | a run after which a hard-deleted entry is soft-deleted and names no tombstone |
| GovernedLtm.CallAltersExactly | self/memory/ltm/src/governed-typed-ltm-runtime.ts:171-408 | for every call under every verdict and fault: entries, tombstones and vectors are as before if and only if verdicts, target, candidate and faults did not let the call change them |
| GovernedLtm.UnappliedCallExactly | self/memory/ltm/src/governed-typed-ltm-runtime.ts:171-408 | the same for a call that throws or reports failure: when it has changed data after all, and that this takes a lost audit record, a failed second write or a lost rollback |
| GovernedLtm.UnappliedCallLeavesData | self/memory/ltm/src/governed-typed-ltm-runtime.ts:171-408 | so with reliable storage such a call leaves entries, tombstones and vectors alone, and a denied one always does |
| GovernedLtm.HalfSupersession | self/memory/ltm/src/governed-typed-ltm-runtime.ts:440-480 | a supersession whose second write fails reports failure and leaves two active versions |
| GovernedLtm.LostRecordLeavesEntry | self/memory/ltm/src/governed-typed-ltm-runtime.ts:247-292 | a write from the empty store whose audit append fails: it throws, and leaves the entry and its vector |
| GovernedLtm.OneRecordPerCall | self/memory/ltm/src/document-ltm-store.ts:146-167 | a call leaves one record, with the next number, if and only if it returns; the record names action, target, project, moment, result and outcome of the call; the log grows if and only if the mutation id was new |
| GovernedLtm.AuditComplete | self/memory/ltm/src/document-ltm-store.ts:219-225 | over every run the log holds a record for every returning call, numbered 1..n without a gap, if and only if no mutation id was used twice |
| GovernedLtm.EveryCallIsDescribed | self/memory/ltm/src/governed-typed-ltm-runtime.ts:171-408 | in a run without reused ids the log describes, at the end, every call that returned |
| GovernedLtm.ReusedIdReplacesRecord | self/memory/ltm/src/governed-typed-ltm-runtime.ts:315 | two calls with one mutation id that both return, and a log of one record |
| GovernedLtm.FreshIdsGiveFreshRun | self/memory/ltm/src/governed-typed-ltm-runtime.ts:315 | callers that bring only fresh ids are enough for a complete log |
| GovernedLtm.IndexBackedExactly | self/memory/ltm/src/governed-typed-ltm-runtime.ts:555-627 | a call keeps every vector backed by an entry if and only if it does not lose both a store write and the rollback of its vector |
| GovernedLtm.IndexNeverDangles | self/memory/ltm/src/governed-typed-ltm-runtime.ts:555-627 | over every run from a backed state, every vector belongs to an entry at the end if and only if no call stranded one |
| MwcPipeline.Pipeline.SubmitCandidate | self/memory/mwc/src/mwc-pipeline.ts:111-190 | submission carries out its specified step for typed and untyped candidates |
| MwcPipeline.SubmitAppliesExactly | self/memory/mwc/src/mwc-pipeline.ts:111-190 | a submission yields an entry, under a new id, if and only if it was admitted, stored and recorded |
| MwcPipeline.SubmitThrowsExactly | self/memory/mwc/src/mwc-pipeline.ts:111-190 | a submission throws if and only if an experience record is not narrated, the record it leaves is lost, or it is admitted and its entry is lost |
| MwcPipeline.SubmitStoresCandidate | self/memory/mwc/src/mwc-pipeline.ts:111-190 | an accepted submission, typed or not, leaves the entry the candidate asks for and its vector, and every other entry as it was |
| MwcPipeline.SubmitIsRecorded | self/memory/mwc/src/mwc-pipeline.ts:139-188 | a submission that returns leaves one record that names its project, moment, result and outcome |
| MwcPipeline.SubmitAltersExactly | self/memory/mwc/src/mwc-pipeline.ts:111-190 | whatever a submission reports, it leaves the data alone if and only if it was not admitted or neither entry nor vector stayed |
| MwcPipeline.SubmitIndexBackedExactly | self/memory/mwc/src/mwc-pipeline.ts:163-170 | the submission keeps vectors backed if and only if it strands none |
| MwcPipeline.Pipeline.ListForProject | self/memory/ltm/src/document-ltm-store.ts:132-144 | lists the entries of the project in every status, each once, in touch order |
| MwcPipeline.Pipeline.SweepListing | self/memory/mwc/src/mwc-pipeline.ts:275-293 | the loop of soft deletes computes the specified sweep, stopping at the first call that throws |
| MwcPipeline.Pipeline.DeleteAllForProject | self/memory/mwc/src/mwc-pipeline.ts:272-297 | the sweep over the listing, then the clearing of short-term memory only if it completed; a count is returned only when the project has no context left |
| MwcPipeline.DeleteAllExactly | self/memory/mwc/src/mwc-pipeline.ts:272-297 | whatever the verdicts and faults, and wherever a throw stops it: other projects, tombstones and vectors are untouched; an entry of the project ends up soft-deleted if and only if the sweep got to it, it was active, approved and stored; the sweep completes if and only if no delete of an active entry throws; the count is that of the calls that reported success |
| MwcPipeline.DeletedAt | self/memory/mwc/src/mwc-pipeline.ts:272-293 | an entry that a sweep deletes is deleted at the moment of its turn |
| MwcPipeline.SweepIsRecorded | self/memory/mwc/src/mwc-pipeline.ts:281-289 | every record a sweep adds is of a soft delete of some target in that project |
| MwcPipeline.EventShelves | self/memory/mwc/src/mwc-pipeline.ts:192-382 | in a run of the pipeline the short-term memory of a project is touched only by its approved compactions and by deletions of it that came through their sweep |
| MwcPipeline.DeleteAllForgets | self/memory/mwc/src/mwc-pipeline.ts:272-297 | after a deletion that neither stops nor fails to clear, the project has no live entry and no summary; its compaction records and the memory of other projects stay |
| MwcPipeline.DeleteAllClearsProject | self/memory/mwc/src/mwc-pipeline.ts:272-297 | with approval and reliable storage no entry of the project stays active, the count is the number that were, and the log grows by as many records without a gap |
| MwcPipeline.Pipeline.CompactStm | self/memory/mwc/src/mwc-pipeline.ts:299-382 | the governed compaction carries out its specified step on both memories |
| MwcPipeline.Pipeline.MutateMemory | self/memory/mwc/src/mwc-pipeline.ts:192-213 | a mutation goes to the runtime, unless it is a compaction, which is carried out on both memories |
| MwcPipeline.CompactionMatchesItsRecord | self/memory/mwc/src/mwc-pipeline.ts:334-381 | success is reported if and only if the compaction was approved, went through or had nothing to do, and was recorded; it throws if and only if the last record it tries to leave is lost |
| MwcPipeline.CompactionRecordSays | self/memory/mwc/src/mwc-pipeline.ts:299-381 | the record of a compaction that returns names the action, the project, the moment and what became of it |
| MwcPipeline.UnappliedCompactionExactly | self/memory/mwc/src/mwc-pipeline.ts:334-381 | a compaction that throws or reports failure leaves the shelf as it was if and only if there was nothing to compact or the compaction record could not be put, and the live context if and only if there was nothing to compact or a put failed; a context compacted all the same takes a lost audit record |
| MwcPipeline.CompactionWithoutRecord | self/memory/mwc/src/mwc-pipeline.ts:343-381 | three compactions of one shelf without success: a lost success record and failure reported, both records lost and an exception, each over a compacted context; and a failed context put that leaves a compaction record |
| MwcPipeline.PipelineIsSound | self/memory/mwc/src/mwc-pipeline.ts:111-382 | the invariant and the evolution of entries extend to every run of submissions, mutations, compactions and project deletions |
| MwcPipeline.PipelineLogIsComplete | self/memory/mwc/src/mwc-pipeline.ts:111-382 | over every such run, under every fault: the log holds a record of its own for every call that returned if and only if no mutation id repeats, and is then numbered 1..n without a gap |
| MwcPipeline.PipelineIndexExactly | self/memory/mwc/src/mwc-pipeline.ts:111-382 | over every such run from a backed state, every vector belongs to an entry at the end if and only if no submission or mutation stranded one |
| Retrieval.TruncateByTokenBudget | self/memory/retrieval/src/budget.ts:29-77 | for any budget, whole or not: keeps the longest beginning of the ranked list that fits, best score first with ties by id and nothing better left out, and reports exactly its tokens and counts; nothing for a budget that is not positive |
| Retrieval.EstimateExactly | self/memory/retrieval/src/budget.ts:18-27 | a text counts the least whole number not below its length times the ratio: one token for every four characters begun |
| Retrieval.TruncationCanonical | self/memory/retrieval/src/budget.ts:29-77 | for distinct ids the kept results do not depend on the order of the input |
| Retrieval.TruncationIdempotent | self/memory/retrieval/src/budget.ts:29-77 | truncating the kept results again keeps all of them |
| Retrieval.LargerBudgetExtends | self/memory/retrieval/src/budget.ts:29-77 | a larger budget keeps what a smaller one kept, followed by more |
| Retrieval.EmptyBudgetExactly | self/memory/retrieval/src/budget.ts:38-48 | the early exit agrees with the loop if and only if there is no result or the best one costs more than the budget |
| Retrieval.EmptyResultIsDropped | self/memory/retrieval/src/budget.ts:38-48 | a result without text that the loop would keep at a budget of zero |
| Retrieval.Retrieve | self/memory/retrieval/src/sentiment-weighted-retrieval-engine.ts:99-150 | for every filter, what is returned are stored entries that match it, the longest fitting beginning of what the hits yield, best first |
| Retrieval.FoundExactly | self/memory/retrieval/src/sentiment-weighted-retrieval-engine.ts:99-105 | a hit is read, with its score, if and only if its entry is stored and visible to the query |
| Retrieval.FoundAsOften | self/memory/retrieval/src/sentiment-weighted-retrieval-engine.ts:99-105 | and as often as the index lists it |
| Retrieval.ApplySelectionPolicy | self/memory/access/src/policy-enforced-retrieval.ts:51-82 | the longest beginning of the capped ranking that fits, best first, with the reason naming the cap exactly when it cut and none exactly when nothing was dropped |
| Retrieval.RetrieveUnderPolicy | self/memory/access/src/policy-enforced-retrieval.ts:204-330 | nothing unless the engine permits the query; else the filtered results, selected when several targets were named |
| Retrieval.PermittedExactly | self/memory/access/src/policy-enforced-retrieval.ts:204-268 | the wrapper lets a query through if and only if the project is configured and not hard-stopped, inherits global entries unless only project scope is asked for, and the projects the query reaches are configured and admit it as it admits them |
| Retrieval.PassesExactly | self/memory/access/src/policy-enforced-retrieval.ts:270-300 | the filter lets through global entries if the project inherits them, its own entries, those of no project, and those of a configured project where both admit each other |
| Retrieval.ResultsAreAllowed | self/memory/access/src/policy-enforced-retrieval.ts:270-312 | every result that leaves the wrapper is one the engine would allow on its own |
| SharedStore.EventRevivesExactly | self/memory/ltm/src/governed-typed-ltm-runtime.ts:424-553 | one call, submission, promotion or reversal under any fault: a retired entry is active afterwards if and only if a reversal or a compensation reached it |
| SharedStore.RetiredExactly | self/memory/distillation/src/supersession-reversal.ts:47-65 | over every run of these on one store: what is retired stays so if and only if no reversal and no compensation of the run reaches it |
| SharedStore.HiddenExactly | self/memory/retrieval/src/sentiment-weighted-retrieval-engine.ts:99-105 | over every such run: an entry the index finds, once retired, is returned by no query without a filter if and only if nothing in the run revives it |
| SharedStore.RetiredIsNeverRetrieved | self/memory/retrieval/src/sentiment-weighted-retrieval-engine.ts:195-251 | without such an event no query for active entries, whatever its filter, returns it, though its vector stays |
| SharedStore.EventKeeps | self/memory/distillation/src/distillation-engine.ts:302-365 | one call, submission, promotion or reversal under any fault, a compensation that removes the pattern included: a successor is there and was issued later, nothing goes away, and content is kept, or redacted with its hash on a tombstone |
| SharedStore.RunKeeps | self/memory/distillation/src/supersession-reversal.ts:47-65 | the same between any two points of every mixed run |
| SharedStore.Newest | self/memory/distillation/src/supersession-reversal.ts:47-65 | so following successors ends at a later or equal entry that has none, and that is superseded only if it is a retired pattern |
| SharedStore.SharedLogIsComplete | self/memory/distillation/src/distillation-engine.ts:367-387 | over every mixed run, with the records the engine appends for its promotions: the log holds a record of its own for every returning call and every logged promotion if and only if no mutation id repeats, and is then numbered 1..n without a gap |
| SharedStore.PromotionIsRecorded | self/memory/distillation/src/distillation-engine.ts:367-387 | the record of a promotion says that the pattern superseded others in its project at that moment; without a sink or a promotion the log is as it was |
| SharedStore.SharedIndexExactly | self/memory/ltm/src/governed-typed-ltm-runtime.ts:555-627 | over every mixed run from a backed state, every vector belongs to an entry at the end if and only if no call stranded one |
| SharedStore.DeletedIsRetrievedAgain | self/memory/distillation/src/supersession-reversal.ts:47-57 | a soft-deleted record that is retrieved again once its pattern has been reversed |
| AccessPolicy.NarrowsExactly | self/memory/access/src/policy-engine.ts:48-61 | the comparison of access lists accepts exactly the lists that grant no more, except an explicit list under none and a list longer than the one it narrows |
| AccessPolicy.NarrowingIsPreorder | self/memory/access/src/policy-engine.ts:48-61 | narrowing is reflexive and transitive |
| AccessPolicy.OverridesCompose | self/memory/access/src/policy-engine.ts:25-72 | two successive valid overrides equal one valid override |
| AccessPolicy.EvaluateExactly | self/memory/access/src/policy-engine.ts:168-418 | the evaluation allows exactly what an order-free statement of the rules grants, and throws exactly for an incomplete context |
| AccessPolicy.RefusalExactly | self/memory/access/src/policy-engine.ts:168-418 | why a complete context is refused: a stop before a bad override, that before a target, a target before the global rule |
| AccessPolicy.RefusalNamesFirstTarget | self/memory/access/src/policy-engine.ts:353-387 | a refused retrieval names the first target that does not pass, and blames the reading side first |
| AccessPolicy.OverrideOnlyNarrows | self/memory/access/src/policy-engine.ts:168-418 | what is allowed with an override is allowed without it, for every action |
| AccessPolicy.TargetOrderIrrelevant | self/memory/access/src/policy-engine.ts:346-418 | neither order nor repetition of the targets matters |
| AccessPolicy.CoveredRetrieveExactly | self/memory/access/src/policy-engine.ts:346-418 | for a context that covers its targets, retrieval is allowed if and only if all targets permit it and the global rule is met |
| AccessPolicy.AccountsForAllExactly | self/memory/access/src/policy-engine.ts:346-418 | an allowed retrieval means that every named target permits it, under all policies the projects may have, if and only if the context covers its targets |
| AccessPolicy.SecondTargetIsNotChecked | self/memory/access/src/policy-engine.ts:353-356 | a valid context with a second target that has no policy: retrieval is allowed although the project may not read it |
| AccessPolicy.PoliciesForExactly | self/memory/access/src/policy-enforced-retrieval.ts:109-115 | the loop over the targets fails exactly when one has no configuration |
| AccessPolicy.BuiltContextCovers | self/memory/access/src/policy-enforced-retrieval.ts:88-168 | every context the builder makes is valid, covers its targets, has their configured policies, carries the requesting project and its control state, and asks for global entries unless only project scope is asked for |
| AccessPolicy.QueryPassesExactly | self/memory/access/src/policy-enforced-retrieval.ts:88-168 | for every kind of query, listed targets, a filter, global or own project: it passes if and only if the project is configured and not hard-stopped, inherits global entries unless only project scope is asked for, and the projects it reaches are configured and admit it as it admits them |
| AccessPolicy.MultiTargetExactly | self/memory/access/src/policy-enforced-retrieval.ts:88-195 | a multi-target query passes if and only if the project is not stopped, every target permits it and the global rule is met |
| AccessPolicy.FilterAgreesWithEngine | self/memory/access/src/policy-enforced-retrieval.ts:174-195 | the per-result filter agrees with the engine for entries of other projects and for global ones |
| RefreshLock.KnowledgeIndexRuntime.RefreshProjectKnowledge | self/memory/knowledge-index/src/knowledge-index-runtime.ts:100-110 | the synchronous part chains the new run behind the one in the map and stores it there |
| RefreshLock.KnowledgeIndexRuntime.SettleRun | self/memory/knowledge-index/src/knowledge-index-runtime.ts:430 | leaving the in-flight map, if the run had entered it |
| RefreshLock.KnowledgeIndexRuntime.CleanUp | self/memory/knowledge-index/src/knowledge-index-runtime.ts:114-117 | removes the key only if it still holds this run |
| RefreshLock.StepKeepsInvariant | self/memory/knowledge-index/src/knowledge-index-runtime.ts:100-119 | every step keeps: chains link runs of one project, the map holds the latest run that is not cleaned up, an absent key means all are done, starts are in order of issue |
| RefreshLock.StartsExactly | self/memory/knowledge-index/src/knowledge-index-runtime.ts:100-119 | a body may start as soon as the earlier runs of its project have settled and no sooner, whatever other projects do; a running body may settle before it is in flight |
| RefreshLock.ScheduleGoesOn | self/memory/knowledge-index/src/knowledge-index-runtime.ts:100-119 | a schedule can be continued by exactly the steps that are enabled where it has led |
| RefreshLock.EverySchedule | self/memory/knowledge-index/src/knowledge-index-runtime.ts:100-119 | the same over every interleaving |
| RefreshLock.MutualExclusion | self/memory/knowledge-index/src/knowledge-index-runtime.ts:100-119 | two runs of one project never run at once |
| RefreshLock.SafeFromTheStart | self/memory/knowledge-index/src/knowledge-index-runtime.ts:100-119 | under any interleaving from the empty maps: exclusion, start in issue order, and what the lock map says |
| RefreshLock.StepsRunOut | self/memory/knowledge-index/src/knowledge-index-runtime.ts:100-119 | without new calls only finitely many steps are possible |
| RefreshLock.SomethingIsEnabled | self/memory/knowledge-index/src/knowledge-index-runtime.ts:100-119 | as long as a run is not cleaned up some step of a run can be taken |
| RefreshLock.QuietMeansClean | self/memory/knowledge-index/src/knowledge-index-runtime.ts:114-117 | when no step is left, every issued run was started exactly once and cleaned up, and both maps are empty |
| StmStore.DocumentStmStore.AppendEntry | self/memory/stm/src/document-stm-store.ts:77-101 | an append adds the entry to the live context, unless its role is invalid or the put fails; other projects are untouched |
| StmStore.DocumentStmStore.CompactProject | self/memory/stm/src/document-stm-store.ts:103-178 | a compaction carries out its specified step on context and records, with a failure at either put |
| StmStore.DocumentStmStore.ClearProject | self/memory/stm/src/document-stm-store.ts:180-183 | removes the live context and keeps the records, unless the delete fails |
| StmStore.Summarize | self/memory/stm/src/document-stm-store.ts:109-166 | computes the new context and the compaction record |
| StmStore.SummaryIsTranscriptSuffix | self/memory/stm/src/document-stm-store.ts:224-251 | over every run the summary is a suffix, of known length, of the transcript of everything compacted since the last clear |
| StmStore.OnePolicyRefinesTranscript | self/memory/stm/src/document-stm-store.ts:103-145 | under one policy the summary is always exactly the last 4 * budget characters of that transcript, whether budgets grow or shrink |
| StmStore.SummaryIsFullExactly | self/memory/stm/src/document-stm-store.ts:224-251 | across changes of policy it is so if and only if no earlier compaction cut into those characters |
| StmStore.ShrinkingBudgetsKeepAll | self/memory/stm/src/document-stm-store.ts:237-251 | budgets that never grow are enough, under any policies |
| StmStore.PolicyChangeLosesText | self/memory/stm/src/document-stm-store.ts:237-251 | a run under two policies in which the summary lost text its last budget had room for |
| StmStore.KeptReaches | self/memory/stm/src/document-stm-store.ts:224-251 | the closed form: the last x characters are still held if and only if every compaction spared them |
| StmStore.CompactionMeetsTarget | self/memory/stm/src/document-stm-store.ts:103-145 | an effective compaction ends within the target or at the retained tokens alone, never raises an over-threshold count, and a second one does nothing |
| StmStore.RecordedSummaryIsRolledIn | self/memory/stm/src/document-stm-store.ts:131-138 | the summary on the record is the end of the new rolling summary |
| StmStore.RecordedCountsAgree | self/memory/stm/src/document-stm-store.ts:151-166 | the counts and the trigger on the record agree with the contexts before and after |
| StmStore.NothingIsLost | self/memory/stm/src/document-stm-store.ts:77-183 | over every run every appended entry is on record, live, or was live when a clear took it away, whatever fails, and is exactly one of these if and only if no compaction was torn between its writes |
| StmStore.RecordsSpellHistory | self/memory/stm/src/document-stm-store.ts:109-174 | without a clear, records followed by live entries spell the appends in order if and only if no compaction was torn |
| StmStore.ClearForgets | self/memory/stm/src/document-stm-store.ts:180-183 | whatever was done before a clear, live entries and summary are what the calls after it alone would have made; the records of before stay in front |
| StmStore.ClearEmpties | self/memory/stm/src/document-stm-store.ts:180-183 | after a clear there is no live entry and no summary, and the records are as before; a clear that fails changes nothing |
| StmStore.TranscriptSpellsAppends | self/memory/stm/src/document-stm-store.ts:109-134 | the batches of the transcript are the lines of consecutive runs of the entries appended since the last clear, in order, and the live entries are the rest |
| StmStore.CompactionExactly | self/memory/stm/src/document-stm-store.ts:103-178 | below the minimum nothing happens; else all but the last entries go, the summary keeps of the end of the old one and their lines what the target has room for, and the record holds their lines and references in order |
| StmStore.LinesConcat | self/memory/stm/src/document-stm-store.ts:130-133 | a batch is one line for each message, oldest first: the role, a colon, the content |
| StmStore.TokensExactly | self/memory/stm/src/document-stm-store.ts:26-28 | a text counts one token for every four characters begun |
| StmStore.ContextReports | self/memory/stm/src/document-stm-store.ts:186-215 | a reader gets the live entries and the summary, the tokens of both, and a call for compaction exactly when these exceed the maximum and the entries reach the minimum |
| CredentialVault.CredentialVaultService.StoreCredential | self/autonomic/credentials/src/credential-vault-service.ts:60-92 | refuses an empty id, key or secret; else writes the entry, then the index, up to the write that fails |
| CredentialVault.CredentialVaultService.RevokeCredential | self/autonomic/credentials/src/credential-vault-service.ts:99-117 | removes the entry, then the index key, up to the write that fails, and says whether there was an entry |
| CredentialVault.CredentialVaultService.BackupCredential | self/autonomic/credentials/src/credential-vault-service.ts:119-137 | records the entry or its absence |
| CredentialVault.CredentialVaultService.RestoreBackup | self/autonomic/credentials/src/credential-vault-service.ts:139-161 | puts the recorded entry back, or removes the present one, then the index, up to the write that fails |
| CredentialVault.CredentialVaultService.DiscardBackup | self/autonomic/credentials/src/credential-vault-service.ts:163-178 | drops the backup if the application owns it, up to the write that fails |
| CredentialVault.CredentialVaultService.PurgeNamespace | self/autonomic/credentials/src/credential-vault-service.ts:180-204 | the counting loop drops the listed entries, then empties the index, up to the write that fails, and returns the number |
| CredentialVault.RunKeepsSane | self/autonomic/credentials/src/credential-vault-service.ts:60-204 | over every run, whatever fails, with ids that do not extend each other by a colon: every entry stands under its own key, indexes hold no key twice, backups name their application |
| CredentialVault.SettledExactly | self/autonomic/credentials/src/credential-vault-service.ts:60-204 | for one application and key, after any call up to any write: the index fits the entry if and only if the call did not tear them apart and either settled them or found them settled |
| CredentialVault.AgreesExactly | self/autonomic/credentials/src/credential-vault-service.ts:60-204 | over every run, whatever fails: index and entries agree at the end if and only if no torn call is outstanding |
| CredentialVault.IndexAgreesExactly | self/autonomic/credentials/src/credential-vault-service.ts:218-220 | for nonempty ids: index and entries agree after every run without a torn call if and only if no application id extends another by a colon |
| CredentialVault.CollisionBreaksIndex | self/autonomic/credentials/src/credential-vault-service.ts:218-220 | for ids that do, two completed stores with nonempty keys and secrets after which one application reads the credential of the other |
| CredentialVault.TornStore | self/autonomic/credentials/src/credential-vault-service.ts:85-86 | a store torn between its writes leaves the entry outside the index; repeating it completes it |
| CredentialVault.TornStoreSurvivesPurge | self/autonomic/credentials/src/credential-vault-service.ts:180-204 | what a torn store left outside the index, a purge does not remove |
| CredentialVault.TornRevoke | self/autonomic/credentials/src/credential-vault-service.ts:99-117 | a torn revocation leaves the key in the index without an entry, and repeating it changes nothing |
| CredentialVault.StoreMends | self/autonomic/credentials/src/credential-vault-service.ts:60-92 | a completed store under the key settles entry and index again, after whatever tore them |
| CredentialVault.TornRestore | self/autonomic/credentials/src/credential-vault-service.ts:139-161 | a torn restore leaves the entry restored or removed and the index as it was; repeating it completes it |
| CredentialVault.TornPurge | self/autonomic/credentials/src/credential-vault-service.ts:180-204 | a purge that failed after any number of deletes leaves the index whole; repeating it completes it |
| CredentialVault.VaultKeyCollision | self/autonomic/credentials/src/credential-vault-service.ts:218-220 | equal vault keys mean equal id and key, or an id that extends the other by a colon |
| CredentialVault.RestoreExactly | self/autonomic/credentials/src/credential-vault-service.ts:139-161 | a completed restore sets exactly one entry and its place in the index to what the backup recorded |
| CredentialVault.RestoreRoundTrip | self/autonomic/credentials/src/credential-vault-service.ts:119-161 | whatever happens, and fails, between a backup and its restore, the entry or its absence comes back exactly, and no other entry, index or backup changes |
| CredentialVault.ForeignBackup | self/autonomic/credentials/src/credential-vault-service.ts:139-173 | a backup is given back to, and discarded for, nobody but the application it was taken for |
| CredentialVault.DiscardExactly | self/autonomic/credentials/src/credential-vault-service.ts:163-178 | a completed discard takes the backup of its application away and nothing else |
| CredentialVault.DiscardedIsGone | self/autonomic/credentials/src/credential-vault-service.ts:139-178 | after it, whatever is called short of a new backup under the reference, a restore finds nothing to give back |
| CredentialVault.PurgeTakesExactlyTheNamespace | self/autonomic/credentials/src/credential-vault-service.ts:180-204 | a completed purge removes exactly the listed entries of the application, empties its index and returns their number; none of its entries is left if and only if all were listed |
| CredentialVault.StoreThenRevoke | self/autonomic/credentials/src/credential-vault-service.ts:60-117 | revoking what was stored where nothing was leaves entries and index as they were |
| CredentialVault.StoreExactly | self/autonomic/credentials/src/credential-vault-service.ts:60-97 | a store is found under its own application and key and changes no other look-up; a key not listed yet is listed last |
| CredentialVault.StoreRefused | self/autonomic/credentials/src/credential-vault-service.ts:60-86 | a store without an application, a key or a secret changes nothing |
| CredentialVault.RevokeExactly | self/autonomic/credentials/src/credential-vault-service.ts:99-117 | a revocation makes its own look-up fail and changes no other; the key is cut out of the index, whose other keys keep their order |
| PullStream.PullOllamaModel | self/apps/shared-server/src/ollama-detection.ts:480-517 | for every way of cutting the text into chunks, the lines judged are those of the whole text up to the first that throws, and the pull completes if and only if none throws and one reports success |
| PullStream.SplitJoins | self/apps/shared-server/src/ollama-detection.ts:495-506 | the split pieces hold no newline and join to the text |
| PullStream.JoinSplits | self/apps/shared-server/src/ollama-detection.ts:495-506 | joining newline-free pieces and splitting gives the pieces back |
| PullStream.TrimExactly | self/apps/shared-server/src/ollama-detection.ts:497 | trimming takes white space off both ends, all of it and nothing else |
| PullStream.SpacesExactly | self/apps/shared-server/src/ollama-detection.ts:497 | the code points that count as white space |
| PullStream.UpToErrorIsPrefix | self/apps/shared-server/src/ollama-detection.ts:315-341 | what is emitted is a beginning of the lines, all of them exactly when none throws, and otherwise ending with the first that does |
| Logger.NamespaceExactly | self/autonomic/logger/src/logger.ts:12 | the recogniser accepts exactly the strings the pattern describes |
| Logger.ResolveChannelEnabled | self/autonomic/logger/src/logger.ts:132-151 | the best-match loop returns the value of the longest configured prefix at a word boundary |
| Logger.LongestPrefixDecides | self/autonomic/logger/src/logger.ts:126-131 | the reference definition is decided by the longest pattern that covers the namespace |
| Logger.DefaultIsEnabled | self/autonomic/logger/src/logger.ts:126-131 | without a nonempty covering pattern the channel is enabled |
| Logger.ConfigOrderIsIrrelevant | self/autonomic/logger/src/logger.ts:132-151 | the order of the configured entries does not matter |
| Logger.NousLogger.Channel | self/autonomic/logger/src/logger.ts:20-40 | returns the cached channel, refuses an invalid namespace, or caches a new one with the resolved flag |
| Logger.NousLogger.BindConfig | self/autonomic/logger/src/logger.ts:42-57 | after a binding every cached flag is the one the configuration resolves to |
| Logger.LogChannel.Emit | self/autonomic/logger/src/log-channel.ts:51-85 | the loop over the slots writes to the active ones and shuts off those that keep failing, unless channel or level forbid it |
| Logger.ShutOffExactly | self/autonomic/logger/src/log-channel.ts:67-84 | a slot is inactive if and only if five deliveries in a row failed since it was registered; its counter is the current row of failures, and stays at five once it is shut off |
| Logger.SlotsExactly | self/autonomic/logger/src/logger.ts:67-97 | over every run there is one slot per registered name, in the state its own results since registration put it in |
| Logger.RegisterExactly | self/autonomic/logger/src/logger.ts:67-97 | an egress registered again gets a new slot in its old place, a new one comes last, and a removed one leaves the others in order |
| Logger.NousLogger.AddEgress | self/autonomic/logger/src/logger.ts:67-86 | replaces the slot of that name, or appends one |
| Logger.NousLogger.RemoveEgress | self/autonomic/logger/src/logger.ts:92-97 | removes the slot of that name, if there is one |

## Left out

- Clustering.IdentifyClusters: cluster keys are not represented, and a cluster's project is that of its first record.
- Retrieval.Retrieve: similarity scores, recency and sentiment weights, and the filter and limit of the vector search enter as given hits with scores.
- Retrieval.RetrieveUnderPolicy: the response's telemetry and decision record are not represented.
- GovernedLtm.GovernedTypedLtmRuntime.WriteEntry: the verdict of the write policy is an input; reason texts, actors, evidence references and sensitivity are not represented.
- Distillation.PromotedPatternIsSound: the text of a pattern, its sensitivity and its evidence references are not represented; its content is empty here.
- Distillation.DistillationEngine.RunDistillationPass: what metrics and decision records say is not represented, only that emitting them may fail; the audit record of a promotion is part of the shared log only.
- Distillation.DistillationEngine.ReverseSupersession: a stored pattern that names no sources at all in one of its two lists is not represented; both lists always hold the same ids.
- LtmStore.Store.Query: a stored document that does not parse, and is skipped, is not represented; limits that are not whole numbers neither.
- SharedStore.HiddenExactly: takes one list of hits for the whole run; which entries a search of the vectors finds is not modelled.
- RefreshLock.KnowledgeIndexRuntime.SettleRun: the body of a refresh is opaque and may fail; digests, taxonomy and relationships are not modelled.
- Surrogates: a text with a character outside the basic plane, which takes two UTF-16 units, or with a lone surrogate, such as a cut between two units leaves, is not represented.
- StmStore.DocumentStmStore.AppendEntry: of the entry schema only the role is checked; a stored document that does not parse is not represented, because the store itself only writes ones that do.
- PullStream.PullOllamaModel: the request, aborting, progress percentages and the bytes behind the decoded text are not modelled.
- Logger.LogChannel.Emit: the entry itself, re-entrant logging by an egress, flush and dispose are not modelled.
- CredentialVault.CredentialVaultService.StoreCredential: metadata fields and what their schema refuses, encryption, and the choice between memory and document store are not represented; both stores behave as finite maps.
- Confidence refresh and decay of existing patterns, the governance table over them, and decay states: single-branch code.
- Exports, mutation listings and tombstone listings: reads without state.
- Interleavings of calls on the stores: their read-then-write steps are not locked in the code; here a call runs, up to where it fails, without another in between.
- The vector store's cosine similarity: floating-point arithmetic on embeddings.
- HTTP, tRPC, user interfaces, service wiring and schema libraries: plumbing around the modelled code.
