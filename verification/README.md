# Verified model of the server-side protocols

The repository keeps vocabulary cards in a transactional document store. Its server side is a set of
hand-written protocols: two migrations, a cross-process file lock, a pending-operation queue and
several stores with revisions, watermarks, quotas and rate limits. A small graph analyser finds
import cycles. This project models those protocols in Dafny 4.11 and proves what they keep over every
run. `dafny verify dfyconfig.toml` checks all of it.

| file | what it models |
|---|---|
| `Prelude.dfy`, `StableSort.dfy` | result types; the stable sort and filter that several parts use |
| `DuplicateCleanup.dfy` | the merge plan of one identity group |
| `Discovery.dfy` | paged discovery with leases, lost and taken over: what every run keeps, and which pages commit |
| `DiscoveryProgress.dfy` | when discovery of a library that nobody changes reaches its end |
| `DiscoveryLimits.dfy` | which pages are refused, the limits of stored groups, and which commits act |
| `LibraryMigration.dfy`, `LibraryMigrationRuns.dfy` | the apply and rollback transactions, and runs of crashing, competing workers |
| `LibraryMigrationProof.dfy`, `LibraryMigrationSafety.dfy` | the invariant: disjoint footprints, documents, counters, fence and workers |
| `LibraryMigrationTheorems.dfy` | rollback inverts apply, and the other theorems about runs |
| `LibraryMigrationMerge.dfy` | what an apply leaves in the library, document by document |
| `LibraryMigrationLease.dfy` | who may change the stored migration: lease, revision and root stamp |
| `LibraryMigrationActs.dfy` | exactly when each step of the library migration acts |
| `MigrationStore.dfy` | the same transactions as methods that update a store in place, proved to be those steps |
| `Inventory.dfy` | the paged two-stream merge into an inventory |
| `SealedManifest.dfy` | sealing that inventory as a digest chain, and reading it back |
| `SealedChain.dfy` | what the sealed chain pins: one cut, one reading, one sealer, and the canonical form |
| `SharedDeckMigration.dfy`, `SharedDeckCutover.dfy` | apply with durable progress and the verifying scan: runs, and the drivers in place |
| `SharedDeckActs.dfy` | exactly which entries an apply takes, and when each step of that migration acts |
| `BackupLock.dfy` | the bakery lock over directory entries |
| `BackupOvertaking.dfy` | in which states of the lock a second user can still get in |
| `PendingQueue.dfy` | queue compaction and replay |
| `PendingGates.dfy` | which queues compaction preserves under the version gates of the replay |
| `PendingOrder.dfy` | which queues stand when they are compacted again |
| `Gamification.dfy` | exactly-once XP operations |
| `XpLedger.dfy` | exactly which operations a save takes, when it is refused, and what its ledger remembers |
| `XpOrder.dfy` | when the order of delivery shows in the XP |
| `CardRevisions.dfy` | the (epoch, revision) protocol of one card slot |
| `SharedDeckUsage.dfy` | the shared-deck usage ledger |
| `SharedDeckDocuments.dfy` | what creating and revoking do to the documents of shared decks |
| `RateLimiter.dfy` | the window rate limiter, its batches and its bounded store |
| `ImportCycles.dfy` | the import-cycle finder |

A transaction body is one atomic step. Where the source updates documents or buffers in place, a class
or a method with a loop does the same, and its contract ties it to a function on the stored state; the
theorems about runs speak about those functions. In a run, workers may stop after any transaction, be
replaced, take over each other's leases and retry, in any interleaving.

## What the proofs found

- **A split directory scan lets two processes in.** The lock lists the directory and then looks at each
  name. If a pending entry is renamed to a ticket between the two, the scan sees neither name, and two
  users run the action at once (`BackupLock.SplitScanLetsTwoIn`). Two users are inside together only if
  such a rename slipped through a scan (`BackupLock.ExclusionUnlessMissed`), so exclusion holds whenever
  none does, in particular when scans are atomic. `BackupOvertaking.MeetExactly` gives the exact condition:
  while one user is inside, another can still get in beside it if and only if its number is in front, or
  its present scan has lost sight of the first one's ticket and leads nowhere behind it. First come, first
  served holds even with split scans.
- **A private creation time that differs below the millisecond sticks.** Classification compares the two
  creation times by millisecond, `isAppliedPair` compares them exactly, and apply writes the public one.
  The written pair is then neither recognised as applied nor as the sealed source, so a retry and the
  verifying scan refuse it (`SharedDeckMigration.SubMillisecondTimeIsStuck`). `RetryIsIdempotentExactly`
  and `AcceptedExactly` give the exact condition.
- **The merge plan can depend on the order of its input.** It does not exactly when all cards spell the
  word alike, no two cards tie for strongest, and for each of audio, image and image query no two cards
  that disagree about it tie for the lead among the cards that have it
  (`DuplicateCleanup.PlanIgnoresOrderExactly`). Undated cards can tie: two unreadable dates subtract to NaN
  and skip the id comparison. `SpellingFollowsOrder`, `UndatedTieFollowsOrder` and `ImageFollowsOrder`
  give the inputs.
- **Discovery is safe and not live.** A group carries the current revision exactly when the page committed
  last touched it (`Discovery.GroupsAreCurrentExactly`), and a freshly read page is committed exactly when
  every identity on it that has a group already was on that last page (`Discovery.FreshPageCommitsExactly`).
  So with pages of one size, a library that nobody changes is discovered to its end exactly when the cards
  of each identity lie on consecutive pages, within the size limits (`DiscoveryProgress.DiscoveryEndsExactly`).
  Three cards, of which the first and the third belong together, stop it for good at one card to a page
  (`DiscoveryProgress.ThirdPageNeverCommits`).
- **An operation can create a second shared deck after its receipt expires, if and only if it was not dated
  before it was first committed** (`SharedDeckUsage.SecondDeckExactly`): the five minutes of accepted clock
  skew leave that room (`SkewCreatesSecondDeck`). The receipt lives as long as the deck, so the first deck
  has expired by then, and two unexpired decks of one operation never stand, whatever its date
  (`SharedDeckUsage.NeverTwoDecksAtOnce`).
- **A batch of rate limits equals the same charges in turn if and only if it lists no budget twice**
  (`RateLimiter.BatchIsInTurnExactly`); and the window bound of twice the maximum less one is reached.
- **Compaction and version gates do not commute.** `PendingGates.PreservesExactly` says for which commands of
  a card they do, from the kinds, order, boundaries and fields of the commands, and
  `PendingGates.ReplayPreservedExactly` says it of whole queues. `LaterBaseLosesPatch` and
  `OlderUpsertKeepsCard` are queues that fail.
- **Compacting a compacted queue may reorder commands of different cards.** It changes nothing exactly when
  commands of the same time stand in the order in which their cards first appear
  (`PendingOrder.RecompactionExactly`; `PendingOrder.OrderAcrossCardsMayChange`).
- **Clamped XP depends on the order of delivery.** It does not exactly when all deltas have one sign, or the
  counter can hold all gains and afford all losses (`XpOrder.DeliveryOrderExactly`;
  `Gamification.ClampingDependsOnOrder`). When clients have several operations each, no delivery in their
  own orders is clamped exactly when there is room for all their highest and lowest sums together
  (`XpOrder.NeverClampsExactly`).
- **A sealed chunk is certain to pass its validator if and only if its frame fits the 1024-byte
  allowance at its index** (`SealedManifest.FrameFitsExactly`), which bounded printable identifiers guarantee.

## Assumptions

Transactions are atomic and serialisable, and a refused one changes nothing. Digests and hashed ids are
injective, so comparing digests is comparing what they digest. Document ids have a strict total order and
are numbers here. Clocks do not go backwards where a statement says so.

## Model

| member | source | states |
|---|---|---|
| LibraryMigrationTheorems.RollbackInvertsApply | functions/src/legacyLibraryMigrationFirestore.ts:1061-2063 | after any run of applies, crashes, takeovers and rollbacks without owner writes, once no group is left applied every card, tombstone and reservation is what it was before the first apply |
| LibraryMigrationTheorems.RolledBackJobRestored | functions/src/legacyLibraryMigrationFirestore.ts:2065-2132 | a job that reports itself rolled back has restored the library |
| LibraryMigrationTheorems.PartialRollbackRestored | functions/src/legacyLibraryMigrationFirestore.ts:1963-2063 | part-way through, every document outside the groups still applied already has its original value |
| LibraryMigrationTheorems.RollbackKeepsOwnersWork | functions/src/legacyLibraryMigrationFirestore.ts:1963-2063 | if the owner wrote between migration and rollback, rolling back gives the owner's library without the effect of the groups |
| LibraryMigrationTheorems.RollbackSucceeds | functions/src/legacyLibraryMigrationFirestore.ts:1845-1904 | while an applied group is untouched its holder can roll it back at once; exactly its documents take their baseline value and the invariant is kept |
| LibraryMigrationTheorems.AnyOrderRestores | functions/src/legacyLibraryMigrationFirestore.ts:2086-2089 | one holder rolling back the applied groups in any order is never stopped and ends with the baseline |
| LibraryMigrationTheorems.CountersAndFootprints | functions/src/legacyLibraryMigrationFirestore.ts:1370-1403 | at every moment of every run the fence counts exactly the applied groups and their sources, and two applied groups share no card id |
| LibraryMigrationTheorems.NextKeepsPlans | functions/src/legacyLibraryMigrationFirestore.ts:1244-1247 | every step keeps each recorded plan: a group is applied at most once, and a rolled-back plan stays rolled back |
| LibraryMigrationTheorems.RunKeepsPlans | functions/src/legacyLibraryMigrationFirestore.ts:1244-1247 | the same over whole runs |
| LibraryMigrationTheorems.FinalizeMergedEverything | functions/src/legacyLibraryMigrationFirestore.ts:1517-1594 | after any run, a finalize step that does anything completes the job with every group applied, all losers gone, and each canonical card outranking the cards it replaces |
| LibraryMigrationTheorems.PhaseNeedsFence | functions/src/legacyLibraryMigrationFirestore.ts:814-917 | in every reachable state a job in a working phase has its fence, so the phases that a begin without a fence would also accept never occur |
| LibraryMigrationTheorems.NothingLive | functions/src/legacyLibraryMigrationFirestore.ts:1963-2063 | with every plan rolled back the stored library equals the baseline |
| LibraryMigrationMerge.AppliedMerges | functions/src/legacyLibraryMigrationFirestore.ts:1280-1369 | the whole library after an apply that writes, in terms of the cards and tombstones it found: the canonical card is bookmarked exactly when a source is, has the earliest source date, the progress and text of the strongest source and each of audio, image and query of the strongest one that has it; the reservation names it; each loser is gone and buried at the larger of its revision plus one and the tombstone found there; everything else is unchanged |
| LibraryMigrationMerge.ApplyStepMerges | functions/src/legacyLibraryMigrationFirestore.ts:1280-1369 | the same of an apply step of any run |
| LibraryMigrationLease.LiveLeaseKeepsOthersOut | functions/src/legacyLibraryMigrationFirestore.ts:814-917 | while another owner's lease runs, neither an apply nor a rollback can take its fence over |
| LibraryMigrationLease.TakeOverExactly | functions/src/legacyLibraryMigrationFirestore.ts:814-917 | a standing fence is taken over exactly by its owner or after its lease, for work of its kind, and keeps its token, counters and start while its revision moves |
| LibraryMigrationLease.TakeAnewExactly | functions/src/legacyLibraryMigrationFirestore.ts:814-917 | without a fence one is taken exactly in the phases that have such work left, a rollback with the counters of the job |
| LibraryMigrationLease.OutsiderChangesNothing | functions/src/legacyLibraryMigrationFirestore.ts:1115-1694 | whoever does not hold the stored fence by token and owner changes nothing that is stored, but for the batch of backups |
| LibraryMigrationLease.BackupOnlyAdds | functions/src/legacyLibraryMigrationFirestore.ts:1061-1114 | that batch adds cards as they are in the library and overwrites none |
| LibraryMigrationLease.StaleCopyChangesNothing | functions/src/legacyLibraryMigrationFirestore.ts:1234-1254 | a copy of an older revision, or a root without the stored stamp, lets no group be applied or rolled back |
| LibraryMigrationLease.UnstampedRootEndsNothing | functions/src/legacyLibraryMigrationFirestore.ts:1517-1594 | the migration ends only under a root with the stored stamp, and a finalize only when every group is counted |
| LibraryMigrationLease.ProgressIsKept | functions/src/legacyLibraryMigrationFirestore.ts:961-1003 | a fence that has made progress is neither cleared nor aborted |
| LibraryMigrationActs.ApplyActsExactly | functions/src/legacyLibraryMigrationFirestore.ts:1234-1290 | a group is applied exactly by a ready worker with the stored revision under its stamp, over sources as digested, a canonical card that is free or a source, a reservation and tombstones as sealed, and the sealed plan |
| LibraryMigrationActs.ApplyRefusals | functions/src/legacyLibraryMigrationFirestore.ts:1234-1290 | each refusal of an apply has its cause |
| LibraryMigrationActs.RollbackActsExactly | functions/src/legacyLibraryMigrationFirestore.ts:1969-2035 | a group is rolled back exactly by a worker past its preflight with the stored revision, over documents as recorded, with all tombstones sealed and all sources backed up |
| LibraryMigrationActs.RollbackRefusals | functions/src/legacyLibraryMigrationFirestore.ts:1969-2035 | each refusal of a rollback has its cause |
| LibraryMigrationActs.ApplyRecords | functions/src/legacyLibraryMigrationFirestore.ts:1370-1403 | an apply counts the group and its sources, moves the revision and the stamp, and records what was sealed and what it leaves at each of its paths |
| LibraryMigrationActs.RollbackPutsBack | functions/src/legacyLibraryMigrationFirestore.ts:2029-2063 | a rollback puts back the backed-up cards and the sealed tombstones and reservation, and touches nothing else |
| LibraryMigrationActs.VerifyActsExactly | functions/src/legacyLibraryMigrationFirestore.ts:785-812 | a worker trusts the manifest exactly when it has read the manifest's cards, each as digested, and no other |
| LibraryMigrationActs.PreflightActsExactly | functions/src/legacyLibraryMigrationFirestore.ts:1906-1961 | a preflight passes exactly when the fence counts the plans and every group still applied is as recorded, with no loser left |
| LibraryMigrationActs.DoneIsAcknowledged | functions/src/legacyLibraryMigrationFirestore.ts:1244-1247 | a group already applied or rolled back is acknowledged without a change |
| LibraryMigrationActs.SealActsExactly | functions/src/legacyLibraryMigrationFirestore.ts:1115-1162 | a group is sealed exactly over sources as digested and backed up, by a holder that verified the manifest, unless it was sealed differently |
| LibraryMigrationActs.SealLeaves | functions/src/legacyLibraryMigrationFirestore.ts:1115-1162 | and what is sealed is the reservation and tombstones that the library holds |
| LibraryMigrationActs.EnterActsExactly | functions/src/legacyLibraryMigrationFirestore.ts:1165-1204 | a worker may apply exactly once it verified the manifest, saw every group sealed and holds the fence |
| LibraryMigrationActs.StampsExactly | functions/src/legacyLibraryMigrationFirestore.ts:929-1059 | renewing a lease and ensuring the root stamp the root with the stored fence |
| LibraryMigrationActs.FinalizeActsExactly | functions/src/legacyLibraryMigrationFirestore.ts:1517-1594 | a migration is finalized exactly by a ready holder under the stamp with every group counted |
| LibraryMigrationActs.FinishActsExactly | functions/src/legacyLibraryMigrationFirestore.ts:2065-2132 | a rollback is finished exactly by a holder that passed its preflight and has nothing left to do |
| LibraryMigrationActs.AbortActsExactly | functions/src/legacyLibraryMigrationFirestore.ts:1662-1694 | a fence is aborted exactly while no group is applied under it |
| LibraryMigrationActs.ClearActsExactly | functions/src/legacyLibraryMigrationFirestore.ts:961-1003 | and cleared exactly by a holder of its revision when it has made no progress |
| LibraryMigrationProof.ApplyIsClean | functions/src/legacyLibraryMigrationFirestore.ts:1255-1279 | an apply transaction that passes its checks cannot have a canonical id that is a source of another group: the digest checks force it |
| LibraryMigrationProof.PathsDisjoint | functions/src/legacyLibraryMigrationFirestore.ts:1255-1279 | clean groups with disjoint sources share no card, tombstone or reservation path |
| LibraryMigrationProof.AfterHasShape | functions/src/legacyLibraryMigrationFirestore.ts:1280-1369 | what an apply writes removes and buries every loser in this job's name and leaves one canonical card above all sources |
| LibraryMigrationProof.ApplyFoundBaseline | functions/src/legacyLibraryMigrationFirestore.ts:1255-1279 | what preparing the group sealed is what the baseline holds for it |
| LibraryMigrationProof.RestoreIsBaseline | functions/src/legacyLibraryMigrationFirestore.ts:2029-2047 | path by path, what a rollback writes is what the baseline holds |
| LibraryMigrationProof.RollbackKeepsDocs | functions/src/legacyLibraryMigrationFirestore.ts:1963-2063 | a rollback takes exactly its group off the applied ones and keeps the document invariant |
| LibraryMigrationProof.SealKeepsDocs | functions/src/legacyLibraryMigrationFirestore.ts:1115-1162 | sealing a group captures only tombstones of other operations and keeps the document invariant |
| LibraryMigrationProof.BackupKeepsDocs | functions/src/legacyLibraryMigrationFirestore.ts:1061-1114 | storing backups never overwrites one and keeps the document invariant |
| LibraryMigrationProof.PreflightFindsIntact | functions/src/legacyLibraryMigrationFirestore.ts:1906-1961 | a passed preflight means every document of every applied group is as recorded |
| LibraryMigrationProof.PageShowsBaseline | functions/src/legacyLibraryMigrationFirestore.ts:702-736 | a page of the library read under the fence shows a card as digested only where the baseline has it: no applied group can hide behind one |
| LibraryMigrationProof.VerifiedBaseline | functions/src/legacyLibraryMigrationFirestore.ts:785-812 | if all pages read, each at its own moment, together match the manifest, so does the baseline |
| LibraryMigrationProof.OwnerWriteKeepsDocs | functions/src/legacyLibraryMigrationFirestore.ts:1963-2063 | owner writes outside a fence keep the document invariant for the rebased baseline |
| LibraryMigrationSafety.NextKeepsInv | functions/src/legacyLibraryMigrationFirestore.ts:814-2132 | every transaction of every worker keeps the whole invariant: documents, job counters, fence and workers |
| LibraryMigrationSafety.RunKeepsInv | functions/src/legacyLibraryMigrationFirestore.ts:814-2132 | and so does every run |
| LibraryMigrationSafety.InitialInv | functions/src/legacyLibraryMigrationFirestore.ts:814-917 | a freshly discovered library with no tombstone in this job's name satisfies it |
| LibraryMigrationSafety.BeginKeepsInv | functions/src/legacyLibraryMigrationFirestore.ts:814-917 | taking, resuming or taking over the fence, for apply or rollback, keeps the invariant |
| LibraryMigrationSafety.EnterKeepsInv | functions/src/legacyLibraryMigrationFirestore.ts:1165-1204 | entering the apply phase keeps it, because the worker verified the manifest and saw every group sealed |
| LibraryMigrationSafety.ApplyKeepsInv | functions/src/legacyLibraryMigrationFirestore.ts:1206-1404 | applying one group keeps it, the counters included |
| LibraryMigrationSafety.RollbackKeepsInv | functions/src/legacyLibraryMigrationFirestore.ts:1963-2063 | rolling back one group keeps it |
| LibraryMigrationSafety.EndingStepKeepsInv | functions/src/legacyLibraryMigrationFirestore.ts:961-1003 | finalizing, clearing a fence without progress and finishing a rollback keep it |
| LibraryMigrationSafety.AbortKeepsInv | functions/src/legacyLibraryMigrationFirestore.ts:1662-1694 | an operator's abort keeps it |
| LibraryMigration.Write | functions/src/legacyLibraryMigrationFirestore.ts:1360-1369 | after a patch every named path holds the patch's document, or none where it deletes, and every other path is unchanged |
| LibraryMigration.Paths | functions/src/legacyLibraryMigrationFirestore.ts:1211-1233 | the paths of a group are exactly those it touches |
| MigrationStore.MigrationStore.BeginMigrationFence | functions/src/legacyLibraryMigrationFirestore.ts:814-917 | the transaction in place is the modelled step: same errors, same fence and job |
| MigrationStore.MigrationStore.EnterApplyPhase | functions/src/legacyLibraryMigrationFirestore.ts:1165-1204 | likewise for entering the apply phase |
| MigrationStore.MigrationStore.CheckApply | functions/src/legacyLibraryMigrationFirestore.ts:1234-1290 | the checks made one by one decide as the modelled obstacle does, in its order |
| MigrationStore.MigrationStore.PutGroup | functions/src/legacyLibraryMigrationFirestore.ts:1360-1369 | setting and deleting a group's documents one at a time writes exactly the patch |
| MigrationStore.MigrationStore.ApplyMigrationGroup | functions/src/legacyLibraryMigrationFirestore.ts:1206-1404 | the apply transaction in place is the modelled step, and a refused one leaves the store alone |
| MigrationStore.MigrationStore.CheckRollback | functions/src/legacyLibraryMigrationFirestore.ts:1969-2035 | the checks of a rollback decide as the modelled obstacle does |
| MigrationStore.MigrationStore.RollbackOneGroup | functions/src/legacyLibraryMigrationFirestore.ts:1963-2063 | the rollback transaction in place is the modelled step, and a refused one leaves the store alone |
| MigrationStore.MigrationStore.PreflightRollback | functions/src/legacyLibraryMigrationFirestore.ts:1906-1961 | succeeds exactly when every applied group is as recorded and the count is the fence's, and lists each of those groups once |
| MigrationStore.MigrationStore.RollbackLegacyLibraryMigration | functions/src/legacyLibraryMigrationFirestore.ts:2065-2132 | undisturbed, it succeeds exactly when its preflight does, and then the library is the baseline; otherwise nothing changed |
| DuplicateCleanup.ComparePrimary | functions/src/duplicateCleanup.ts:262-273 | the comparator's sign is negative and positive exactly for the two directions of the ranking |
| DuplicateCleanup.RankingIsAnOrder | functions/src/duplicateCleanup.ts:227-273 | the ranking is a strict weak order even with unreadable dates, so sorting by it is well defined |
| DuplicateCleanup.PlanIgnoresOrder | functions/src/duplicateCleanup.ts:298-399 | with readable dates and one spelling of the word, every order of the input gives the same plan |
| DuplicateCleanup.RankingIsOutdoing | functions/src/duplicateCleanup.ts:227-273 | the ranking is the comparison of progress field by field in the source's order, then of date, then of id |
| DuplicateCleanup.PlanMerges | functions/src/duplicateCleanup.ts:298-399 | the planned card read off the cards alone: progress and text of an unbeaten source, each media field of an unbeaten source that has it, bookmarked exactly when a source is, the earliest date, one revision above all |
| DuplicateCleanup.PlanIgnoresOrderExactly | functions/src/duplicateCleanup.ts:298-399 | every order of the cards gives the same whole plan if and only if all spell the word alike, no two tie for the lead, and for audio, image and image query alike no two that disagree tie for the lead among those that have it |
| DuplicateCleanup.FieldOfStrongestBearer | functions/src/duplicateCleanup.ts:355-357 | the merged card takes audio, image and image query each from the strongest of the cards that have one |
| DuplicateCleanup.ChoiceIgnoresOrderExactly | functions/src/duplicateCleanup.ts:298-342 | of the plan, the word and the strongest card alone ignore the order if and only if all cards spell the word alike and no two cards tie for the lead |
| DuplicateCleanup.SpellingFollowsOrder | functions/src/duplicateCleanup.ts:305-342 | two cards of one lexeme with different spellings: the plan takes the first one's |
| DuplicateCleanup.UndatedTieFollowsOrder | functions/src/duplicateCleanup.ts:240-273 | two equal cards with unreadable dates: the first one is the strongest |
| DuplicateCleanup.ImageFollowsOrder | functions/src/duplicateCleanup.ts:355-357 | three cards with a clear leader that has no image, and two undated ones with different images: the plan takes the image of the first of these |
| DuplicateCleanup.SuccessIgnoresOrder | functions/src/duplicateCleanup.ts:302-328 | whether a group can be planned never depends on the order |
| DuplicateCleanup.MergedCardConserves | functions/src/duplicateCleanup.ts:319-383 | the merged card outranks every source within the safe integers, keeps the earliest date, and is bookmarked exactly when some source is |
| DuplicateCleanup.TombstonesCoverLosers | functions/src/duplicateCleanup.ts:385-399 | every card but the canonical one is buried one revision above its own, and nothing else is |
| DuplicateCleanup.LosersAreDistinct | functions/src/duplicateCleanup.ts:385-399 | no card is buried twice |
| Discovery.BuildProjectedGroups | functions/src/legacyLibraryMigration.ts:244-288 | refuses exactly the pages on which some card takes its group over the count or byte limit; otherwise projects the page onto the groups it touches, under the next revision |
| Discovery.DiscoveryIsAPartition | functions/src/legacyLibraryMigrationFirestore.ts:490-651 | over any run of competing workers with lost leases, repeated commits and a changing library: groups are the committed sources by identity, in id order, none beyond the cursor, both counters true |
| Discovery.CommittedWereStored | functions/src/legacyLibraryMigrationFirestore.ts:581-597 | over any run in which the owner keeps editing, every committed source was the stored card of its id, digest and size included, at the moment its page was committed |
| Discovery.StalePageAddsNothing | functions/src/legacyLibraryMigrationFirestore.ts:581-597 | a page that holds a card changed or removed since it was read leaves job, groups and counters as they were |
| Discovery.CommitNeedsLease | functions/src/legacyLibraryMigrationFirestore.ts:503-523 | and so does a commit without the stored lease |
| DiscoveryLimits.SendableExactly | functions/src/legacyLibraryMigration.ts:244-398 | a worker goes on with exactly the pages of at most 100 cards and 8 MiB in order behind the cursor, with which every group stays within 100 cards and 4 MiB |
| DiscoveryLimits.GroupsStayWithinLimits | functions/src/legacyLibraryMigration.ts:244-288 | in every reachable state no stored group exceeds the limits |
| DiscoveryLimits.CommitDecides | functions/src/legacyLibraryMigrationFirestore.ts:503-604 | a page is committed exactly while outstanding under the live lease, on a job as read, in the library's epoch, with every card as read and every touched group current; a page sent again is acknowledged |
| DiscoveryLimits.CommitLeaves | functions/src/legacyLibraryMigrationFirestore.ts:605-641 | what a commit stores in each group and in the job |
| Discovery.EachSourceOnce | functions/src/legacyLibraryMigration.ts:334-398 | in every group ids ascend strictly, and a committed source is in exactly the group of its identity |
| Discovery.NextKeepsInv | functions/src/legacyLibraryMigrationFirestore.ts:490-651 | every step keeps the partition, the counters, and what each worker may still rely on |
| Discovery.CommitOutdatesWorkers | functions/src/legacyLibraryMigration.ts:223-238 | a commit leaves true what every other worker may rely on, because the revision chain has grown past what it read |
| Discovery.StoredIsProjected | functions/src/legacyLibraryMigrationFirestore.ts:605-641 | storing only the touched groups over the rest is projecting all groups, and the group count grows by the new ones |
| Discovery.GroupsAreCurrentExactly | functions/src/legacyLibraryMigrationFirestore.ts:606-616 | in every reachable state a group carries the job's revision if and only if its identity is on the page committed last; any other group carries a revision of fewer pages |
| Discovery.FreshPageCommitsExactly | functions/src/legacyLibraryMigrationFirestore.ts:490-651 | in every reachable state a freshly read page within the limits, sent under a live lease, is committed if and only if each identity on it that has a group already was on the page committed last; otherwise it is refused |
| Discovery.CommitTouchesLastPage | functions/src/legacyLibraryMigrationFirestore.ts:606-616 | in every reachable state, whatever the worker has read and when, a page that is committed touches no existing group but those of the page committed last |
| DiscoveryProgress.DiscoveryEndsExactly | functions/src/legacyLibraryMigrationFirestore.ts:1738-1761 | however far any number of workers have come in a library that nobody changes, with pages of one size, the end can still be reached if and only if no identity skips a page between two of its cards and groups and pages keep their limits; and at the end the whole library has been taken in |
| DiscoveryProgress.ThirdPageNeverCommits | functions/src/legacyLibraryMigrationFirestore.ts:606-616 | a run from the start that commits two pages of one card, after which no worker can ever commit the third |
| DiscoveryProgress.NeverPast | functions/src/legacyLibraryMigrationFirestore.ts:606-616 | discovery never takes in a card that does not fit, nor any behind it |
| DiscoveryProgress.NextKeepsTracks | functions/src/legacyLibraryMigrationFirestore.ts:490-651 | over an unchanged library every step leaves the committed cards a front of the library that ends at a page border, with the page committed last before it |
| Inventory.DrainMergeBuffers | functions/src/legacySharedDeckMigration.ts:1227-1265 | the loop over both buffers computes the drain function |
| Inventory.JoinIsOuterJoin | functions/src/legacySharedDeckMigration.ts:1227-1265 | merging two ascending streams gives exactly their full outer join, strictly ascending, each id once, none missing |
| Inventory.DrainIsFrontOfJoin | functions/src/legacySharedDeckMigration.ts:1227-1265 | whatever is still to be read, draining emits the front of the join and leaves the rest of it |
| Inventory.DrainTakesPrefixes | functions/src/legacySharedDeckMigration.ts:1227-1265 | draining takes a prefix of each buffer, so nothing is lost or reordered |
| Inventory.DrainStops | functions/src/legacySharedDeckMigration.ts:1227-1265 | a buffer keeps documents only while the other one is empty and its stream goes on |
| Inventory.DrainMovesCursors | functions/src/legacySharedDeckMigration.ts:1506-1509 | the cursors read off the records are those of the last documents taken from each buffer |
| Inventory.CursorMoves | functions/src/legacySharedDeckMigration.ts:1432-1460 | a cursor moved over k documents leaves exactly the documents behind them |
| Inventory.ReadPage | functions/src/legacySharedDeckInventoryFirestore.ts:23-44 | a page and what follows its cursor make up what followed the cursor before; it says the stream is over only if it is |
| Inventory.MergeOnce | functions/src/legacySharedDeckMigration.ts:1465-1511 | one merge emits the front of the remaining join; filled or finished buffers that are not both empty always yield a record |
| Inventory.Round | functions/src/legacySharedDeckMigration.ts:1422-1582 | one round keeps every chunk a valid place to stop and comes closer to the end; of all its errors only the page budget is reachable |
| Inventory.CreateInventory | functions/src/legacySharedDeckMigration.ts:1371-1583 | over any cutting into pages, fresh or resumed, the loop ends with exactly the join of what was left; the stalled error is unreachable; every chunk is a valid place to stop |
| Inventory.FreshScanIsOuterJoin | functions/src/legacySharedDeckMigration.ts:1371-1583 | the entries of a fresh scan are the full outer join of the collections by share id |
| Inventory.CutAndResume | functions/src/legacySharedDeckMigration.ts:1211-1225 | stopping after any chunk and resuming from its cursors gives, with the entries kept, those of the uncut run |
| SealedManifest.BuildSealedManifest | functions/src/legacySharedDeckMigration.ts:1711-1775 | fails exactly on an entry that fits no chunk, and names the first; otherwise the chunks are bounded, form one digest chain and hold the inventory, and no chunk has room for the entry that follows it |
| SealedChain.CutIsUnique | functions/src/legacySharedDeckMigration.ts:1711-1775 | two greedy cuts of one inventory are the same chunks, so sealing it again builds the same chain |
| SealedChain.ReadableExactly | functions/src/legacySharedDeckMigration.ts:2165-2233 | a store is read exactly when it is sealed in the asked context with the manifest of the very chain it holds, each chunk made of its entries in its place and within the bounds |
| SealedChain.OutsiderStoresNothing | functions/src/legacySharedDeckInventoryFirestore.ts:103-209 | a process whose context is not the frozen one stores nothing |
| SealedChain.FreezeStands | functions/src/legacySharedDeckInventoryFirestore.ts:55-101 | over any run without a supersede the freeze keeps its context, and a sealed one its manifest |
| SealedChain.NextKeepsFreeze | functions/src/legacySharedDeckInventoryFirestore.ts:55-101 | only a superseded freeze gives way, to another revision of the same owner and target |
| SealedChain.ProgressIsOneByOne | functions/src/legacySharedDeckInventoryFirestore.ts:132-209 | progress counts chunks stored one by one, and the seal is set with as many as were counted |
| SealedChain.BeginExactly | functions/src/legacySharedDeckInventoryFirestore.ts:55-101 | a freeze is refused exactly for another owner or target, another revision that stands, or a superseded one of this revision; otherwise it is rejoined or taken anew |
| SealedChain.SealingSucceeds | functions/src/legacySharedDeckInventoryFirestore.ts:55-209 | undisturbed, one process takes the freeze, stores its chunks and seals its manifest |
| SealedChain.ChunkBytesIsCanonicalLength | functions/src/legacySharedDeckMigration.ts:442-471 | the size that the validator bounds is the length of the canonical form: sorted keys, escaped strings, decimal numbers |
| SealedManifest.WellBuiltIsValid | functions/src/legacySharedDeckMigration.ts:2165-2181 | every chunk the builder makes passes the validator's entry and byte bounds while its frame fits the allowance |
| SealedManifest.OverheadIsAllowedFor | functions/src/legacySharedDeckMigration.ts:1732-1756 | bounded printable-ASCII identifiers keep the frame within the allowance |
| SealedManifest.FrameFitsExactly | functions/src/legacySharedDeckMigration.ts:1748-1756 | at every index and behind every chain, all buildable chunks are valid if and only if the frame is at most the allowance |
| SealedManifest.ChainDeterminesChunks | functions/src/legacySharedDeckMigration.ts:2183-2233 | two chains of valid chunks with the same last digest are the same chain |
| SealedManifest.ReadBackIsTheInventory | functions/src/legacySharedDeckMigration.ts:2183-2233 | whatever a reader accepts under a manifest is the chain it was built from, entry for entry |
| SealedManifest.SealRoundTrip | functions/src/legacySharedDeckInventoryFirestore.ts:103-209 | over any run of competing and crashing sealers, a store sealed with an inventory's manifest can be read, and only as that inventory |
| SealedManifest.SealChunkKeepsPartly | functions/src/legacySharedDeckInventoryFirestore.ts:132-169 | a chunk transaction of the same inventory, by any process at any index, keeps the partly sealed state and is refused only ahead of the progress |
| SealedManifest.SealStore.SealChunk | functions/src/legacySharedDeckInventoryFirestore.ts:132-169 | one chunk transaction in place is the modelled step |
| SealedManifest.SealStore.SealFreeze | functions/src/legacySharedDeckInventoryFirestore.ts:103-209 | started over after any interruption, sealing succeeds and ends sealed with the same chain, fully stored |
| SealedManifest.SealStore.ReadSealed | functions/src/legacySharedDeckMigration.ts:2183-2233 | returns the entries of a readable chain, and refuses only if there is none |
| SharedDeckMigration.ApplyEntryIsFinal | functions/src/legacySharedDeckMigration.ts:2617-2677 | an entry that is applied ends in its final form, and a validation pass changes nothing |
| SharedDeckMigration.ApplyEntryMeans | functions/src/legacySharedDeckMigration.ts:2050-2086 | what an applied entry leaves in both documents, in terms of the sealed entry |
| SharedDeckMigration.SettledEntry | functions/src/legacySharedDeckMigration.ts:2035-2048 | once settled, over any run: a kept or migrated deck expires at its existing expiry, or the proposed one if it has none, when that is no later than the scan plus 30 days, otherwise exactly then; and it is in the ledger with that expiry exactly unless it had expired at the scan |
| SharedDeckMigration.VerifiedEntry | functions/src/legacySharedDeckMigration.ts:2733-2987 | over any run that ends verified, every entry holds its final documents, or its sealed sources with both filed, none is blocked, and every stored deck is an entry |
| SharedDeckActs.ApplyTakesExactly | functions/src/legacySharedDeckMigration.ts:2617-2677 | an apply takes exactly a deck to set aside as sealed, a pair in final form, or sealed sources with a payload, a public time and an expiry |
| SharedDeckActs.ValidationPassesExactly | functions/src/legacySharedDeckMigration.ts:2617-2677 | a validation passes exactly what an apply would leave as it is |
| SharedDeckActs.BatchActsExactly | functions/src/legacySharedDeckMigration.ts:2588-2688 | entry i is applied exactly as the next one of an apply under way that can take it |
| SharedDeckActs.FinishActsExactly | functions/src/legacySharedDeckMigration.ts:2689-2715 | the apply ends exactly past its last entry, with the expected ledger |
| SharedDeckActs.OnePage | functions/src/legacySharedDeckMigration.ts:2874-2890 | behind a cursor there is one page: the next two ids in order, or all that are left |
| SharedDeckActs.PublicPageActsExactly | functions/src/legacySharedDeckMigration.ts:2869-2928 | a scan moves past exactly that page, when each deck on it verifies, and ends with a page that is not full |
| SharedDeckActs.SealedPageActsExactly | functions/src/legacySharedDeckMigration.ts:2930-2956 | the pass over the sealed entries moves exactly by the next two that verify |
| SharedDeckActs.FinishVerifyActsExactly | functions/src/legacySharedDeckMigration.ts:2957-2987 | the verification ends exactly when all three scans have, over the expected ledger |
| SharedDeckMigration.RetryIsIdempotentExactly | functions/src/legacySharedDeckMigration.ts:2050-2086 | applying a written entry again changes nothing if and only if its private creation time is absent or equal to the public one |
| SharedDeckMigration.SubMillisecondTimeIsStuck | functions/src/legacySharedDeckMigration.ts:2050-2086 | two creation times within one millisecond: the pair that apply writes is refused by the next apply |
| SharedDeckMigration.NextKeepsInv | functions/src/legacySharedDeckMigration.ts:2455-2987 | every apply and verify transaction, by any worker at any moment, keeps documents, ledger, progress and scan consistent |
| SharedDeckMigration.ProgressIsTrue | functions/src/legacySharedDeckMigration.ts:2588-2688 | along every run, entries below the saved progress hold what one application made of them, in final form; the others are untouched |
| SharedDeckMigration.OutsideIsUntouched | functions/src/legacySharedDeckMigration.ts:2588-2688 | documents outside the inventory never change |
| SharedDeckMigration.AppliedIsComplete | functions/src/legacySharedDeckMigration.ts:2689-2715 | phase applied means every entry is final and the ledger is the expected one |
| SharedDeckMigration.VerifiedIsCutOver | functions/src/legacySharedDeckMigration.ts:2733-2987 | phase verified means every entry is accepted, no deck lies outside the inventory and the ledger is right, whatever the starting documents |
| SharedDeckMigration.AcceptedExactly | functions/src/legacySharedDeckMigration.ts:2050-2086 | the scan accepts an applied entry if and only if it was final from the start or its private creation time adds nothing to the public one |
| SharedDeckMigration.LedgerMatchesDocuments | functions/src/legacySharedDeckMigration.ts:2416-2430 | once applied, a deck is in the ledger exactly when its document expires after the scan, with that document's bytes and expiry |
| SharedDeckMigration.SharesListed | functions/src/legacySharedDeckMigration.ts:2416-2430 | the expected ledger lists exactly the unexpired copyable entries |
| SharedDeckMigration.LedgerCounts | functions/src/legacySharedDeckMigration.ts:2416-2430 | the expected byte counter is the sum over the listed shares |
| SharedDeckMigration.ExpectedEntryFor | functions/src/legacySharedDeckMigration.ts:2745-2757 | the binary search finds a sealed id exactly when the inventory has it |
| SharedDeckCutover.CutoverStore.ApplyOneBatch | functions/src/legacySharedDeckMigration.ts:2596-2687 | one apply transaction in place is the modelled step, and succeeds exactly when it is its turn and the entry can be applied |
| SharedDeckCutover.CutoverStore.CheckSources | functions/src/legacySharedDeckMigration.ts:2534-2565 | passes exactly when every source is applied already or still as sealed |
| SharedDeckCutover.CutoverStore.ApplyLegacySharedDeckMigration | functions/src/legacySharedDeckMigration.ts:2455-2724 | fresh or resumed after a crash, the driver is one of the modelled runs; it succeeds exactly when every source is ready and applicable and the ledger is absent or expected; it writes nothing unless every source is ready |
| SharedDeckCutover.CutoverStore.ScanSource | functions/src/legacySharedDeckMigration.ts:2866-2922 | scanning a collection ends; it stops early only over a library that is not cut over |
| SharedDeckCutover.CutoverStore.SealedPass | functions/src/legacySharedDeckMigration.ts:2930-2953 | the direct pass over the sealed ids, resumed from wherever it was left, ends at the last entry or refuses for cause |
| SharedDeckCutover.CutoverStore.VerifyLegacySharedDeckCutover | functions/src/legacySharedDeckMigration.ts:2733-2987 | fresh or resumed after any crash, it reopens writes exactly when apply is settled and the library is cut over; the block check on freshly classified documents, which can refuse more, is outside this condition |
| BackupLock.SplitScanLetsTwoIn | dev/sharedDeviceStoreAdapter.ts:645-663 | with a listing followed by separate looks there is a run with two users inside |
| BackupLock.ExclusionUnlessMissed | dev/sharedDeviceStoreAdapter.ts:672-761 | in every run two users are inside together only if the rename of one slipped through the scan of the other |
| BackupLock.MutualExclusion | dev/sharedDeviceStoreAdapter.ts:672-761 | if no rename hides a listed pending entry from a running scan, no two users are inside at once |
| BackupLock.AtomicMutualExclusion | dev/sharedDeviceStoreAdapter.ts:672-761 | in particular with atomic scans, for any number of users and any interleaving, crashes and give-ups included |
| BackupLock.NextKeepsInv | dev/sharedDeviceStoreAdapter.ts:672-761 | every step keeps the bakery invariant between every two users |
| BackupLock.FirstComeFirstServed | dev/sharedDeviceStoreAdapter.ts:672-761 | a user whose ticket existed before another's pending entry is never overtaken by it, split scans or not |
| BackupLock.ObstacleBarsEverybody | dev/sharedDeviceStoreAdapter.ts:736-744 | while an unknown file, a pending entry or an unrecognised ticket stays in the directory, nobody gets in on a check that begins there, has it still to look at, or has found it |
| BackupLock.ScanKeepsToItsListing | dev/sharedDeviceStoreAdapter.ts:645-663 | a scan counts only entries of its own listing that it found, with a living owner |
| BackupLock.MissedExactly | dev/sharedDeviceStoreAdapter.ts:645-663 | a scan misses a rename exactly if it listed the pending entry and has not yet looked at it |
| BackupLock.TheDeadDoNotBlock | dev/sharedDeviceStoreAdapter.ts:645-663 | whatever crashed users left behind, one scan of a waiting user removes it and lets that user in |
| BackupOvertaking.MeetExactly | dev/sharedDeviceStoreAdapter.ts:632-761 | in every reachable state with one user inside, some run from there has another inside with it if and only if that one's number is in front, or its present scan has not listed the first one's ticket and has so far seen nothing against passing or against a number in front |
| BackupOvertaking.BarredNeverMeets | dev/sharedDeviceStoreAdapter.ts:723-745 | a user that may not pass now never gets in while the first one stays, whatever anybody does |
| BackupOvertaking.MayPassGetsIn | dev/sharedDeviceStoreAdapter.ts:723-745 | a user that may pass gets in once everybody else has left, the first one staying inside |
| BackupLock.NamesSortAsTickets | dev/sharedDeviceStoreAdapter.ts:665-670 | zero-padded ticket names sort by number and then token, and give the number back |
| BackupLock.ChooseNumber | dev/sharedDeviceStoreAdapter.ts:726-730 | chooses one more than the highest recognised ticket listed |
| BackupLock.MayEnter | dev/sharedDeviceStoreAdapter.ts:736-744 | lets its user in exactly when no pending or unrecognised entry is listed and its ticket is the first |
| PendingQueue.MergeLocalPendingOperations | dev/sharedDeviceStoreAdapter.ts:242-297 | the loop over the sorted queue computes the compacted queue |
| PendingQueue.ReplayPending | dev/sharedDeviceStoreAdapter.ts:350-398 | the loop over the queue computes the replayed cards |
| PendingQueue.CompactionPreservesReplay | dev/sharedDeviceStoreAdapter.ts:242-297 | with every version gate open, replaying the compacted queue from any cards equals replaying the whole queue in time order |
| PendingQueue.MergedByCard | dev/sharedDeviceStoreAdapter.ts:242-297 | the merged queue holds, for each card, exactly its compacted commands in time order |
| PendingQueue.ReplayByCard | dev/sharedDeviceStoreAdapter.ts:350-398 | replaying does to each card what that card's own commands do, in order |
| PendingQueue.CompactedActsAlike | dev/sharedDeviceStoreAdapter.ts:254-288 | a card's compacted commands act on it as all its commands do |
| PendingQueue.MergedShape | dev/sharedDeviceStoreAdapter.ts:242-297 | each card keeps one command or an upsert followed by one patch, and compacting again leaves them as they are |
| PendingGates.PreservesExactly | dev/sharedDeviceStoreAdapter.ts:242-297 | for one card's commands, replaying the compacted ones under the version gates equals replaying all, from every card and from none, if and only if their kinds, order, boundaries and fields meet a condition on the commands alone |
| PendingGates.KeptIsDeciding | dev/sharedDeviceStoreAdapter.ts:258-288 | what compaction keeps first is the last upsert if only patches follow it, and otherwise the first delete behind the last upsert; behind an upsert one patch stands for all that follow |
| PendingGates.ReplayPreservedExactly | dev/sharedDeviceStoreAdapter.ts:350-398 | replaying the compacted queue from any cards equals replaying the whole queue in time order if and only if each card's commands meet that condition |
| PendingGates.LaterBaseLosesPatch | dev/sharedDeviceStoreAdapter.ts:275-285 | two patches, the second against an older base: the compacted replay loses the first |
| PendingGates.OlderUpsertKeepsCard | dev/sharedDeviceStoreAdapter.ts:263-266 | a delete followed by an upsert of an older version: the compacted replay keeps a card that the full replay deletes |
| PendingOrder.RecompactionExactly | dev/sharedDeviceStoreAdapter.ts:242-297 | compacting a merged queue again changes nothing if and only if its commands of the same time stand in the order in which their cards first appear |
| PendingOrder.FixedExactly | dev/sharedDeviceStoreAdapter.ts:242-297 | the same for every queue that is in time order with each card's commands compact |
| PendingOrder.OrderAcrossCardsMayChange | dev/sharedDeviceStoreAdapter.ts:242-297 | four commands whose compacted queue changes order when compacted again |
| Gamification.ApplyOperations | functions/src/gamificationPersistence.ts:370-381 | the loop adds the deltas in turn, clamped |
| Gamification.ClassifyKeepsInv | functions/src/gamificationPersistence.ts:474-517 | registering an operation raises watermarks without gaps, covers what it acknowledges and applies an operation once |
| Gamification.SaveIsOk | functions/src/gamificationPersistence.ts:443-585 | one save lowers no watermark, passes only acknowledged sequences, covers every acknowledged one and applies only what it passes |
| Gamification.SavedWatermark | functions/src/gamificationPersistence.ts:443-585 | after a save the legacy map is gone and each client's watermark is the maximum of the old one and its mark |
| Gamification.AppliedAtMostOnce | functions/src/gamificationPersistence.ts:443-585 | over any run of retried, reordered and overlapping saves each structured operation changes XP at most once |
| XpLedger.SaveExactly | functions/src/gamificationPersistence.ts:474-517 | a save applies exactly the operations, in the order sent, that are in the ledger under neither id and whose sequence it passes, or that are plain and free of the legacy map; acknowledges exactly those covered or in the ledger; and XP moves by the applied ones |
| XpLedger.TakenInTurn | functions/src/gamificationPersistence.ts:477-488 | a structured operation is covered exactly when it is at most one past the stored watermark, or the one before it was sent earlier and is covered |
| XpLedger.StoredIsNotApplied | functions/src/gamificationPersistence.ts:499-515 | what the ledger holds under its id or its legacy id changes no XP, and sent again as a plain operation it is acknowledged |
| XpLedger.NextInLineIsApplied | functions/src/gamificationPersistence.ts:499-515 | a structured operation next in line with neither id in the ledger is applied |
| XpLedger.RememberedIsNotAppliedAgain | functions/src/gamificationPersistence.ts:245-257 | over any run, until as many operations as the ledger has room for have been acknowledged behind it, an id stays in the ledger and no operation that bears it changes XP |
| XpLedger.LedgerIsNewest | functions/src/gamificationPersistence.ts:245-257 | the ledger holds the newest distinct ids, oldest first, all of them unless it is full |
| XpLedger.SaveSucceedsExactly | functions/src/gamificationPersistence.ts:519-529 | a save of an initialised account fails exactly when the stream documents it needs do not fit |
| XpLedger.FirstSaveSucceedsExactly | functions/src/gamificationPersistence.ts:452-529 | a first save succeeds exactly within the client budget, without a gap behind the stored streams, and with room for its streams; each refusal has its cause |
| XpLedger.FirstSave | functions/src/gamificationPersistence.ts:490-542 | a first save stores the XP it was sent, acknowledges everything and passes every sequence |
| Gamification.AckedIsCovered | functions/src/gamificationPersistence.ts:443-585 | everything ever acknowledged stays at or below the stored watermark, also across the move from the legacy map, and every sequence passed was acknowledged |
| Gamification.WatermarksNeverFall | functions/src/gamificationPersistence.ts:416-432 | over any run watermarks never decrease and stream documents never exceed 128 |
| Gamification.ScheduleDoesNotMatter | functions/src/gamificationPersistence.ts:365-381 | two unclamped delivery schedules that end at the same watermarks give the same XP: the start plus all deltas passed |
| Gamification.ClampingDependsOnOrder | functions/src/gamificationPersistence.ts:365-368 | with clamping the same two operations give different XP in different orders |
| XpOrder.OrderFreeExactly | functions/src/gamificationPersistence.ts:365-381 | all orders of a list of operations give the same XP if and only if all deltas have one sign, or the XP plus all gains stays within the maximum and less all losses not below zero |
| XpOrder.DeliveredXp | functions/src/gamificationPersistence.ts:443-585 | saves that each deliver the next operation of a different client apply their deltas in the order of delivery |
| XpOrder.DeliveryOrderExactly | functions/src/gamificationPersistence.ts:443-585 | so the order of these saves does not show in the XP if and only if the deltas meet that condition |
| XpOrder.NeverClampsExactly | functions/src/gamificationPersistence.ts:365-381 | no delivery that keeps each client's own order is ever clamped if and only if the XP has room for the highest sums of all clients together and for their lowest |
| XpOrder.RoomIsOrderFree | functions/src/gamificationPersistence.ts:365-381 | with that room every such delivery leaves the start plus all deltas |
| Gamification.XpStore.ApplyGamificationForOwner | functions/src/gamificationPersistence.ts:434-585 | the save transaction in place is the modelled one, and a refused one leaves the documents alone |
| CardRevisions.CardSlot.CreateCardForOwner | functions/src/cardPersistence.ts:628-737 | the create transaction in place is the modelled one: same branches, same errors |
| CardRevisions.CardSlot.ApplyReviewForOwner | functions/src/reviewPersistence.ts:289-400 | likewise for the review transaction |
| CardRevisions.VersionsRise | functions/src/cardPersistence.ts:533-585 | over any run whose deletes bury what they delete, every write strictly raises the slot's (epoch, revision) |
| CardRevisions.ReviewedAtMostOnce | functions/src/reviewPersistence.ts:301-400 | no version of a card is reviewed twice |
| CardRevisions.AppliedIsSpent | functions/src/reviewPersistence.ts:301-400 | a review that was applied can never be applied again, also after its receipt was removed |
| CardRevisions.UnawareCreatesChangeNothing | functions/src/cardPersistence.ts:688-709 | over any run, clients that do not know of a delete cannot bring the card back |
| CardRevisions.CreateExactly | functions/src/cardPersistence.ts:688-720 | creating an absent card succeeds exactly without a tombstone of the epoch, or with a sound one that the client knows of or wrote after; the card follows the tombstone |
| CardRevisions.OtherEpochsChangeNothing | functions/src/cardPersistence.ts:644-660 | a client of another epoch creates and reviews nothing, and is told on which side it is |
| CardRevisions.CreateOfExistingExactly | functions/src/cardPersistence.ts:533-585 | a create that finds a card returns it unchanged in the current shape, and otherwise upgrades it one revision up |
| CardRevisions.ReviewAppliesExactly | functions/src/reviewPersistence.ts:301-400 | a review is applied exactly to the version it was made against, in date and without a receipt, and moves that card by one revision |
| CardRevisions.AnsweredFromReceipt | functions/src/reviewPersistence.ts:302-317 | whatever happens in between, a review sent again while its receipt stands changes nothing, and other content under its id is refused |
| CardRevisions.RecreateRaisesExactly | functions/src/cardPersistence.ts:569-585 | recreating a deleted card raises its version if and only if the tombstone was no older than the card |
| SharedDeckUsage.RecomputeUsage | functions/src/sharedDeckPersistence.ts:185-201 | keeps exactly the unexpired entries and counts them again |
| SharedDeckUsage.UsageStore.ValidateUsageCounters | functions/src/sharedDeckPersistence.ts:276-289 | accepts counters exactly when they are those of all entries or those of the unexpired ones |
| SharedDeckUsage.UsageStore.CreateSharedDeck | functions/src/sharedDeckPersistence.ts:318-400 | the create transaction in place is the modelled one |
| SharedDeckUsage.UsageStore.RevokeSharedDeck | functions/src/sharedDeckPersistence.ts:403-477 | likewise for the revoke transaction |
| SharedDeckUsage.NextKeepsInv | functions/src/sharedDeckPersistence.ts:318-477 | creates, revokes and removals by the database keep every ledger true and mirrored by its owner's documents |
| SharedDeckUsage.LedgersAreTrue | functions/src/sharedDeckPersistence.ts:276-400 | in every reachable state counters are the count and sum of the entries, the caps hold, and the unexpired entries are exactly the owner's unexpired documents |
| SharedDeckUsage.CreateErrors | functions/src/sharedDeckPersistence.ts:318-400 | in reachable states each refusal of a create has its cause: a stale operation, a reused one with another fingerprint, a full quota, a taken id, or an empty payload; the counter mismatch and the missing migration cannot occur |
| SharedDeckUsage.RevokeErrors | functions/src/sharedDeckPersistence.ts:403-477 | a revoke fails only for want of ownership, or on a public deck without its private document |
| SharedDeckDocuments.CreateSucceedsExactly | functions/src/sharedDeckPersistence.ts:318-400 | in reachable states a create succeeds exactly in date and either answered by a receipt of the same content or within the quota beside what its owner holds, with a free id |
| SharedDeckDocuments.LedgerOpensExactly | functions/src/sharedDeckPersistence.ts:276-317 | a ledger opens exactly with at most 100 entries and the counters of all or of the unexpired ones; without one, exactly for an owner of no deck |
| SharedDeckDocuments.RevokeSucceedsExactly | functions/src/sharedDeckPersistence.ts:403-477 | on any store, a revoke goes through exactly for a deck that is not there, or one's own that the ledger lists as it is or that has expired |
| SharedDeckDocuments.CreateLeaves | functions/src/sharedDeckPersistence.ts:360-400 | a create adds one deck to what its owner holds, with its two documents and its receipt, and changes nothing else for anybody |
| SharedDeckDocuments.RevokeLeaves | functions/src/sharedDeckPersistence.ts:403-477 | a revoke takes exactly that deck away |
| SharedDeckDocuments.DeckStands | functions/src/sharedDeckPersistence.ts:318-477 | over any run a deck stands, with its owner and expiry, until its owner revokes it or it expires |
| SharedDeckDocuments.RetryIsToldItsDeck | functions/src/sharedDeckPersistence.ts:332-346 | for the life of its receipt a retry changes nothing and is told the id of the deck it made; other content is refused |
| SharedDeckUsage.SecondDeckExactly | functions/src/sharedDeckPersistence.ts:318-400 | an accepted operation can create two decks, in some store and some run of retries with its date, if and only if it was not dated before its first commit |
| SharedDeckUsage.NeverTwoDecksAtOnce | functions/src/index.ts:908-928 | over any run of creates that give decks their 30 days, with operations of any date, two unexpired decks of one operation never stand at the same time |
| SharedDeckUsage.SkewCreatesSecondDeck | functions/src/sharedDeckPersistence.ts:318-345 | from the empty store: create under such an operation, let the receipt expire, send it again, and a second deck is created; the first one, which lives as long as its receipt, has expired by then |
| SharedDeckUsage.RetryAfterReceiptExactly | functions/src/sharedDeckPersistence.ts:318-345 | once the receipt has expired every retry is stale if and only if the operation was dated before it was committed |
| SharedDeckUsage.OperationCreatesOnce | functions/src/sharedDeckPersistence.ts:318-400 | over any run of past-dated operations each operation creates at most one deck |
| RateLimiter.WindowBound | functions/src/rateLimiter.ts:42-76 | with a clock that does not go back, any half-open interval one window long holds at most 2*maximum-1 allowed calls, whatever expired documents are removed |
| RateLimiter.BoundIsReached | functions/src/rateLimiter.ts:42-76 | for every positive safe maximum there is a run that reaches this bound |
| RateLimiter.DecidesExactly | functions/src/rateLimiter.ts:42-76 | a call is refused exactly while an hour runs that has had its maximum; a budget out of range counts for nothing |
| RateLimiter.RetryAfterExactly | functions/src/rateLimiter.ts:62-69 | the wait a refused caller is told is the shortest after which a call is allowed |
| RateLimiter.RefusedUntil | functions/src/rateLimiter.ts:42-76 | whatever is called in between, nothing is allowed until that wait is over, and the first call after it is |
| RateLimiter.AcceptedExactly | functions/src/rateLimiter.ts:196-221 | a batch is accepted if and only if each of its charges has a valid maximum and time and could be made alone |
| RateLimiter.BudgetStore.ConsumePersistentRateLimits | functions/src/rateLimiter.ts:196-221 | the batch transaction charges all its budgets or none, and reports an invalid maximum or time before any refusal |
| RateLimiter.BatchIsInTurnExactly | functions/src/rateLimiter.ts:196-221 | an accepted batch charges what charging in turn would if and only if it lists no budget twice |
| RateLimiter.MemoryRateLimitStore.Consume | functions/src/rateLimiter.ts:84-109 | the bounded store in place is the modelled one and never exceeds its capacity |
| RateLimiter.MemoryRefinesUnbounded | functions/src/rateLimiter.ts:84-109 | what the bounded store allows an unbounded one allows, with the same charge; it refuses more only when full of current budgets |
| RateLimiter.MemoryWindowBound | functions/src/rateLimiter.ts:84-109 | the bounded store keeps the window bound for every budget |
| ImportCycles.CanonicalCycle | scripts/architectureAnalyzer.ts:144-152 | the loop finds the least rotation of a cycle |
| ImportCycles.CanonicalFormIsUnique | scripts/architectureAnalyzer.ts:144-152 | all rotations of one cycle have the same canonical form |
| ImportCycles.ReportsAreDistinctCycles | scripts/architectureAnalyzer.ts:144-180 | no two different reports are rotations of one cycle |
| ImportCycles.CycleFinder.ReportCycle | scripts/architectureAnalyzer.ts:154-168 | every import of a file still being visited adds a report, a simple cycle in canonical form that passes along that import |
| ImportCycles.CycleFinder.Visit | scripts/architectureAnalyzer.ts:154-176 | the search ends, restores the stack, finishes its file, and every import of a finished file finished earlier or lies on a report |
| ImportCycles.RankedIsReported | scripts/architectureAnalyzer.ts:154-180 | a closed walk that no report touches would have to rank below itself |
| ImportCycles.FindCycles | scripts/architectureAnalyzer.ts:154-180 | ends for every graph; reports only simple cycles in canonical form; every directed cycle has an import that lies on a report; and it reports nothing if and only if there is no directed cycle |
| ImportCycles.CuttingReportsBreaksEveryCycle | scripts/architectureAnalyzer.ts:154-180 | with the reported imports taken out, what is left of the graph has no cycle |

## Left out

Library migration and discovery:

- The sealed final-library scan (`scanFinalLibrary`, `verifySealedFinalLibrary`), facets, resource usage and progress documents, and restoring those profile documents on rollback.
- Byte and count limits of the apply and rollback transactions.
- Discovery.BuildProjectedGroups: every card has an identity and can be described; the source blocks a page with a card that has none, or holds an unsupported value.
- DiscoveryProgress.DiscoveryEndsExactly: all pages of the run have one size; the source takes the size with each call.
- MigrationStore.MigrationStore.RollbackLegacyLibraryMigration: modelled without other workers between its transactions, and without the sealed final library and the profile documents; with other workers the theorems about runs hold.
- Lease clocks: whether a stored lease is still live is an input of each step.
- The library is read in pages, of any cards and at any moments; reading the manifest's own groups, which nothing changes, and the preflight of a rollback are one step each. A worker that verifies may leave pages unread that hold no listed card.
- The fields that a dropped fence leaves in the backup root: the model keeps its last stamp, which no later fence has.
- Version monotonicity through the migration: apply deletes the canonical id's old tombstone whatever its revision, so none is claimed.
- Sanitising of card fields, images, text and scheduler state in the merge plan; free text is an opaque value. Words and names are numbers, with their order.

Shared-deck migration:

- Classification of shares, equivalence marking, quota previews, backup manifests, signatures, index evidence and reports.
- Inventory.CutAndResume: compares entries without the payload-equivalence flag, which is computed over a whole run.
- Inventory.Round: the byte limit of a page read, and its error, are left out; pages are limited by count.
- Inventory.CreateInventory: likewise without the byte limit of page reads.
- SealedManifest.SealStore.ReadSealed: reads and checks the chain; the shape of single entries, their count and the quota totals checked behind it are left out.
- SharedDeckCutover.CutoverStore.CheckSources: a source that matches its seal passes; the size check on the quarantine envelope built from it is left out.
- SharedDeckCutover.CutoverStore.ApplyLegacySharedDeckMigration: its exact condition leaves out the refusals over backups, index evidence, quotas and envelope size, which come before the first write.
- SharedDeckCutover.CutoverStore.VerifyLegacySharedDeckCutover: its exact condition leaves out the block check on freshly classified documents.
- SealedManifest.OverheadIsAllowedFor: identifiers are printable ASCII; for other characters the sizes of the source's encoder are not modelled.
- Writers outside the migration: they are frozen while it runs.

Lock and queue:

- BackupLock.AtomicMutualExclusion: assumes that a live user's own entry is never reclaimed; the source decides this from process ids and file identities.
- Waiting, timeouts and retries of the lock: giving up is a step that may come at any time, and no liveness is claimed.
- Malformed pending operations, several owners in one queue, flush leases and acknowledgement filtering.

Stores:

- PendingQueue.CompactionPreservesReplay: holds for open version gates only; for the real gates `PendingGates.ReplayPreservedExactly` gives the exact condition.
- Gamification.ApplyOperations: the day history that the same loop updates is left out.
- Gamification.XpStore.ApplyGamificationForOwner: XP, watermarks and ledgers only; day history, streaks, activity and the validation of stored documents are left out.
- CardRevisions.CardSlot.CreateCardForOwner: one slot; identity reservations, card limits and content validation are left out.
- CardRevisions.CardSlot.ApplyReviewForOwner: the strict mode, without the review history and the checks on scheduler transitions.
- SharedDeckUsage.UsageStore.CreateSharedDeck: without the migration fence and the rate limits charged beside it.
- SharedDeckUsage.UsageStore.RevokeSharedDeck: without the migration fence, and for owner documents of schema 2.
- XpOrder.DeliveryOrderExactly: one operation of each of several clients. For several operations of each, `XpOrder.NeverClampsExactly` is exact about clamping; a clamp that later operations wash out again may still leave the order invisible, and no condition is given for that.
- Day history, streaks, activity times and stored-document validation of gamification; unstructured XP operations are deduplicated only inside the bounded ledger: `XpLedger.RememberedIsNotAppliedAgain` says for how long.
- Card content, identity reservations, usage counts and the scheduling arithmetic; a review's effect on them is not part of this model.
- CardRevisions.VersionsRise: needs deletes that leave a tombstone no older than the card; where deletes are written is not part of this model.
- The migration fence and rate limits inside shared-deck creation, and legacy owner documents of schema 1.
- The circuit breaker around the rate limiter's store.

Import cycles:

- Parsing imports and resolving paths: the graph is an input. File names are numbers in name order, and the final locale-aware sort of the reports is left out, so they form a set.
