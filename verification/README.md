# Offline relocation engines: a verified model

Linux-Defragger moves clusters underneath live file-system metadata. Its engines plan moves, copy
data, rewrite allocation tables, directory entries, MFT records, exFAT entry sets or HFS+ extent
descriptors, and protect every step with an external journal. This project models those engines in
Dafny 4.11 and proves what they promise: that files survive, that planners terminate where they say
they do, and that a crash at any point is recovered exactly.

`dafny verify dfyconfig.toml` checks every module.

## What is modelled

**FAT, planning level** (`ClusterLayout`, `FatEngine`, `FatCompact`, `GrowthPrepare`, `GrowthPlan`,
`GrowthPreflight`, `GrowthRoom`, `GrowthLayout`, `GrowthDefrag`, `GrowthLimits`, `FileDefrag`). A
layout is the list of scanned objects with their cluster chains plus the bad clusters. The engine is
a class whose `lay` changes only through `ExecuteMoves`, one journalled transaction at a time; `txs`
logs them. The planners are methods with the loops of the original.

**FAT, volume level** (`FatVolume`, `FatScan`, `FatJournal`, `FatRelocation`, `FatMeaning`,
`FatReferences`, `FatEntries`, `FatTransaction`, `VolumeRuns`, `PlannerVolumes`,
`StaleReferences`). A volume is its table copies, its cluster blocks made of directory cells, and its
root. `ScanFiles` is the directory scan; `EveryCellRead` and `NothingElseRead` say what it finds,
entry by entry. `MakeJournal` and `Complete` are the transaction. The two levels meet in
`RelocationPreservesMeaning`: rescanning a completed volume gives the layout the planner predicted.
`AfterTransactions`, `RunKeepsFiles` and `PlansCarryOver` carry this over whole runs whose planned
layouts stay readable. Compact's runs do on every volume (`CompactOnVolume`), every planner's do
where no cluster number is reserved (`EveryPlanCarriesOver`).

**FAT, device level** (`FatCrash`, `FatTable`, `FatTableWrites`, `FatCopy`). The phases of a
completion as single writes, with crashes that keep any subset of them in any order; the packed 12-,
16- and 28-bit tables with their sector-batched update; the buffered copy with coalesced extents and
concurrent readers.

**NTFS** (`NtfsRunlist`, `NtfsBitmap`, `NtfsFixups`, `NtfsRecord`, `NtfsFormat`, `ExtentCopy`,
`NtfsCompact`, `NtfsPass`, `NtfsMove`, `NtfsContents`, `NtfsTransaction`, `NtfsMapping`, `NtfsPlanned`). Mapping pairs and the
second decoder of the analyser, byte-skipping bitmap scanners, update-sequence fixups, record
rewriting, the one-pass compactor, and the copy / reserve / switch / release protocol with its
recovery. `NtfsTransaction` joins the protocol with the record format: after any crash the record
reads as the old or the new mapping, with the bitmap to match, and read through that mapping the
stream has its old bytes. `NtfsPlanned` joins the compactor with it: over a whole pass no planned
move of an 8-aligned attribute is refused.

**exFAT** (`ExfatMove`). The tail-cluster move with its data copy, its three commit shapes and its
recovery.

**HFS+** (`HfsFork`, `HfsPatches`, `HfsMove`, `HfsVolume`, `HfsRelocation`). Fork addressing, bitmap
states, descriptors and headers as byte patches, the journal built from them, and the whole move:
from a consistent volume to one that holds the fork in one run, across any crash.

**Allocation maps** (`MapRanges`, `MapCells`, `MapStates`, `MapBitmaps`). `Basics` and `Arithmetic`
hold what several engines share.

**Crashes.** Between two syncs any subset of the writes issued may reach the device; for FAT, in any
order and also partly. MFT records may be torn at sector boundaries. Replacing a journal is atomic.
Recovery may be cut any number of times. Stop requests are an arbitrary function of the number of
polls. That an exFAT entry set is one write is an assumption: a torn set fails its checksum, the
parser then raises (`gui/exfat_engine.py:147-149`), and recovery gives up without repairing
anything.

## Where the code and the expectation part

1. *Reserved cluster numbers.* FAT12 and FAT16 volumes can have cluster numbers at or above the
   reserved range. Moving a cluster that is not the first of its chain there leaves a volume the
   engine itself can no longer read. `RelocationPreservesMeaning` gives the exact condition on the
   table, `TransactionExact` on the planned layout, `ReservedClusterCounterexample` a volume. Compact
   never meets it (`CompactOnVolume`); staging in a Growth Defrag workspace does, exactly as
   `StagingExact` says.
2. *The canonical layout test.* It compares first clusters only and is consulted only after the
   preflight refused for missing growth room. `Admit` reports a layout as satisfied although it is not
   exactly when `Misreported` holds: the first problem in scan order is missing growth room and every
   first cluster is canonical. `CanonicalCounterexample` is one; all of them are fragmented.
3. *Admission with bad clusters.* The admission test charges one cluster for each bad one
   (`AdmissionCharges`), but a bad cluster can cost more, and an admitted volume can be refused later
   in two ways. It may have no terminal workspace: `WorkspaceExact` gives the exact condition,
   `LostWorkspace` a volume. Or it may have the workspace and no layout below it, exactly when nothing
   fits the one layout the preparation ends in: `LostFit` is a volume. A caller can rule out both:
   `AffordableSuffices` charges each bad cluster at the size of the largest object.
4. *Finding objects again.* Growth Defrag looks objects up by path and kind after each rescan and
   takes the first match. With two records of the same path and kind and different sizes it gives up
   (`EmptyTwin`); it cannot do so if all sizes agree (`SizesAgree`), and cannot complete otherwise.
   With equal sizes it completes, but every object reaches its own target exactly when each record is
   its own first match (`EachAtTarget`, `OwnRecords`).
5. *Journals of fixed-root volumes.* The text reader requires root clusters of at least 2, but FAT12
   and FAT16 journals record 0, so it refuses all of them (`ReaderAcceptsExactly`). Redo is stated
   over the journal itself.
6. *Reserved FAT32 bits.* A batched update clears the top four bits of every entry in the sectors it
   writes; single writes keep them (`ReservedBits`).
7. *NTFS mapping capacity.* The capacity formula guarantees a fitting rewrite exactly under the
   alignment condition of `CapacityExact`; 8-aligned attributes meet it. For them both capacity tests
   are redundant: a mapping never grows when its stream moves down as one run (`NeverGrows`). An
   attribute name stored behind the mapping pairs is overwritten by the rewrite (`NameLost`); one
   before them survives (`UpdatedName`). The docstring of `gui/ntfs_engine.py` says Compact may split
   extents; the code never does, and the model follows the code. The analyser accepts mapping pairs
   the engine rejects (`AnalyserIsLaxer`).
8. *exFAT.* Forward recovery rewrites the last table entry to the end mark, so a recovered volume can
   differ from a finished move in that one entry; `MovedMeans` shows they read alike for a given number
   of clusters, and without one exactly when the move wrote that entry or it ended the chain before.
9. *Ranges.* `merge_ranges` drops a range with a negative start instead of clipping it; the
   aggregators divide by the number of cells and need at least one unit.

## Model

| member | source | states |
|---|---|---|
| `ClusterLayout.RelocateEffect` | src/linux_defragger_engine.c:1821-1850 | One transaction that moves owned clusters onto free ones, one to one, keeps the scan invariants (chains in range, no loop, no cross-link, no bad cluster), exchanges exactly its sources for its destinations in the allocated and the free set, and conserves the free count. |
| `ClusterLayout.RunKeeps` | src/linux_defragger_engine.c:2124-2134 | Over any lawful run of transactions the layout stays well formed and every object keeps identity and length; only cluster numbers change. |
| `FatEngine.Engine.constructor` | src/linux_defragger_engine.c:1297-1325 | A scanned layout starts a run: the engine is valid with no transaction issued. |
| `FatEngine.Engine.ExecuteMoves` | src/linux_defragger_engine.c:2124-2134 | The layout becomes its relocation, the log grows by this transaction, free and allocated sets exchange sources and destinations, the free count is conserved. |
| `FatEngine.HighWater` | src/linux_defragger_engine.c:2031-2046 | The result is the highest movable allocation, or 1 when there is none. |
| `FatEngine.FirstFreeRunBelowHighWater` | src/linux_defragger_engine.c:2086-2113 | Reports the lowest maximal free run below the highest allocation, or reports none exactly when no free cluster lies below it. |
| `FatEngine.TerminalFreeClusters` | src/linux_defragger_engine.c:2014-2022 | The length of the maximal free run that ends the volume. |
| `FatCompact.PlanTailFill` | src/linux_defragger_engine.c:2444-2466 | The hole is filled from its start upward with the highest owned clusters in descending order; the plan is legal, never empty (the exit for a hole that cannot be filled is unreachable) and stops short of its limit only when nothing owned is left above its destination. |
| `FatCompact.CompactVolume` | src/linux_defragger_engine.c:2414-2499 | Terminates; each transaction is the one its layout determines: the first hole filled with the highest clusters, as many as hole, batch (4096 when none is given) and budget take; every move goes strictly downward; the free count is conserved; counters agree with the log and the budgets; the run stops early only on a stop request, and otherwise ends with no free cluster below the highest allocation or with a budget used up exactly. |
| `FatCompact.TailStepUnique` | src/linux_defragger_engine.c:2414-2499 | A layout with a hole determines the next transaction of Compact; one without holes has none. |
| `FatCompact.CompactionUnique` | src/linux_defragger_engine.c:2414-2499 | A compaction that ends without holes is determined by the layout it starts from: any two issue the same transactions. |
| `GrowthPrepare.SelectWholeObject` | src/linux_defragger_engine.c:2176-2226 | Finds, among the whole objects that lie above the hole and fit it, the one with the lowest first cluster; reports none exactly when no object is eligible. |
| `GrowthPrepare.PlanWholeObjects` | src/linux_defragger_engine.c:2176-2258 | Packs whole objects into the hole from its start; the plan is empty only when no object is eligible. |
| `GrowthPrepare.StagingMakesItFit` | src/linux_defragger_engine.c:2296-2347 | After the object behind the hole is parked in the terminal run, the widened hole can take that whole object. |
| `GrowthPrepare.PlanExtentShift` | src/linux_defragger_engine.c:2349-2386 | The extent behind the hole moves down in order; the plan is legal, within its budget and never empty. |
| `GrowthPrepare.GrowthPrepareVolume` | src/linux_defragger_engine.c:2136-2411 | Terminates on every volume although it may move objects upward; conserves the free count; every transaction is the one its layout determines; counters agree with the log and the budgets; stops early only on request, and otherwise ends with no free cluster below the highest allocation or with a budget used up exactly. |
| `GrowthPrepare.StepUnique` | src/linux_defragger_engine.c:2136-2411 | A layout with a hole determines the next transaction of the preparation; one without holes has none. |
| `GrowthPrepare.PreparationUnique` | src/linux_defragger_engine.c:2136-2411 | A preparation that ends without holes is determined by the layout it starts from: any two issue the same transactions. |
| `GrowthPrepare.PreparesToOne` | src/linux_defragger_engine.c:2136-2411 | There is one layout an unlimited preparation of a volume ends in, and a volume without holes is its own. |
| `GrowthPlan.BuildGrowthObjects` | src/linux_defragger_engine.c:2580-2628 | Lists every allocated object once, in physical order, with the exact size of the largest one. |
| `GrowthPlan.ListingUnique` | src/linux_defragger_engine.c:2580-2628 | Whatever the sort does with ties, two listings of a volume in physical order have the same objects, sizes, kinds and first clusters at every position. |
| `GrowthPlan.UniqueIsFindable` | src/linux_defragger_engine.c:2859-2876 | When no two records share path and kind, every record is its own first match. |
| `GrowthPlan.FindUsableRun` | src/linux_defragger_engine.c:2634-2657 | The lowest run of clusters that are not bad inside the window, or none exactly when the window holds none. |
| `GrowthPlan.AdvanceReserve` | src/linux_defragger_engine.c:2659-2671 | Steps over exactly the requested number of usable clusters and no further, or fails exactly when fewer are left. |
| `GrowthPlan.GreedyAhead` | src/linux_defragger_engine.c:2673-2705 | Object by object, the greedy plan is never behind any other layout in the same order. |
| `GrowthPlan.PlanGrowthLayout` | src/linux_defragger_engine.c:2673-2705 | A plan exists if and only if some layout in physical order fits below the limit with every growth room, whatever clusters are bad; without bad clusters, if and only if sizes and growth rooms add up to no more than the space. The growth room is the one Reserve defines. |
| `GrowthPlan.Reserve` | src/linux_defragger_engine.c:2689-2692 | The growth room of a file is the least number of clusters that is at least the given percentage of its size. |
| `GrowthPreflight.Preflight` | src/linux_defragger_engine.c:2718-2783 | Accepts exactly the layouts in which every object is contiguous and every file is followed by its growth room, said both of the object list and, through SatisfiedIsPromised, of cluster numbers alone; otherwise reports the problem of the first object in scan order that has one, which is unique. |
| `GrowthPreflight.SatisfiedIsPromised` | src/linux_defragger_engine.c:2718-2783 | The preflight condition in plain numbers: some regular file exists, every chain counts up by one, and after every file of n clusters come enough unowned clusters, bad ones not counted, that a hundred times their number is at least n times the percentage. |
| `GrowthPreflight.FileGrows` | src/linux_defragger_engine.c:2718-2783 | For one file: its growth room is there if and only if it can grow by the percentage of its size, rounded up, into unowned clusters directly behind it. |
| `GrowthPreflight.LaidOutIsSatisfied` | src/linux_defragger_engine.c:2718-2783 | Idempotence: a volume laid out according to a plan passes the preflight at the same percentage, whenever it holds a regular file. |
| `GrowthPlan.PlanUnique` | src/linux_defragger_engine.c:2673-2705 | There is only one greedy plan: two of them give every object the same target. |
| `GrowthPreflight.MatchesCanonical` | src/linux_defragger_engine.c:2796-2813 | Says yes exactly when the plan for the whole volume exists and every object starts at its planned first cluster. |
| `GrowthPreflight.CanonicalAcceptsOnlyFragmented` | src/linux_defragger_engine.c:2951-2983 | Whenever the canonical test accepts a layout that the preflight refused, some object of it is fragmented. The exact condition for that report is Misreported, in Admit. |
| `GrowthPreflight.SameCanonical` | src/linux_defragger_engine.c:2954-2983 | The canonical test gives the same answer for every listing of the volume, so whether a layout is misreported depends on the layout alone. |
| `GrowthPreflight.MisreportedIsFragmented` | src/linux_defragger_engine.c:2951-2983 | A misreported layout (the first problem is missing growth room, and all first clusters are canonical) is not satisfied and has a fragmented object. |
| `GrowthPreflight.CanonicalCounterexample` | src/linux_defragger_engine.c:2954-2962 | A directory in clusters 2 and 5 around a file in cluster 4 is misreported: the preflight reports missing growth room, the canonical test calls the layout fine. |
| `GrowthLayout.FindObject` | src/linux_defragger_engine.c:2859-2876 | The lookup after a rescan returns the first record in scan order with the path and kind. |
| `GrowthLayout.PlanBatch` | src/linux_defragger_engine.c:3116-3176 | Collects objects from the last one down whose targets are free; each record found is either already in place or covered completely by legal moves; it gives up for a changed size only at an object whose first match has another size. |
| `GrowthLayout.EnoughSlots` | src/linux_defragger_engine.c:3282-3313 | The parked object has at least as many released clusters outside its target as there are occupied clusters inside it, so the exit for too few blocker slots is unreachable. |
| `GrowthLayout.ClearTarget` | src/linux_defragger_engine.c:3273-3370 | Evacuating the blockers leaves the target completely free and the objects placed so far in place; neither the exit for a reused source nor the exit for a target still occupied can be taken. |
| `GrowthLayout.StageAndPlace` | src/linux_defragger_engine.c:3219-3386 | Takes the exit for a changed size exactly when the first match has another size than planned, without writing; otherwise puts that record at its target, leaves later ones in place and the workspace empty again. |
| `GrowthLayout.LayoutObjects` | src/linux_defragger_engine.c:3088-3394 | Total correctness of the reverse layout loop on every scan: it ends on request, or with the exit for a changed size, which it takes only when some first match has another size than planned, or with the record found for every object settled; no other error exit is reachable. |
| `GrowthLayout.SizedExact` | src/linux_defragger_engine.c:3125-3236 | All planned sizes agree with the records found if and only if every record is as long as the first record with its path and kind; a caller can check this before the run. |
| `GrowthLayout.EachAtTarget` | src/linux_defragger_engine.c:3088-3394 | After a finished loop every object is at its own target if and only if no record was found for two objects. |
| `GrowthLayout.OwnRecords` | src/linux_defragger_engine.c:2859-2876 | Given equal sizes, no record is found twice if and only if every record is its own first match. |
| `GrowthLayout.FinishedLayout` | src/linux_defragger_engine.c:3088-3394 | A finished loop over records that are their own first matches leaves every object contiguous at its planned target. |
| `GrowthDefrag.WorkspaceExact` | src/linux_defragger_engine.c:3056-3061 | A prepared volume ends in n free clusters if and only if the last n clusters are not bad and everything else fits below them; both sides can be decided before the preparation. |
| `GrowthDefrag.AdmissionSuffices` | src/linux_defragger_engine.c:2994-3012 | Without bad clusters the admission test is sufficient: the workspace exists and the plan fits below it. |
| `GrowthRoom.EnoughRoom` | src/linux_defragger_engine.c:2634-2705 | If everything fits with each bad cluster charged at the size of the largest object, a layout fits in whatever physical order the objects have. |
| `GrowthDefrag.AffordableSuffices` | src/linux_defragger_engine.c:2994-3082 | A volume whose last clusters are usable and which affords that charge has its workspace and a layout below it, before and after the preparation. |
| `GrowthDefrag.AdmissionCharges` | src/linux_defragger_engine.c:2994-3012 | On such a volume the admission test is the same inequality with one cluster charged for each bad one, so the two agree when no object has more than one cluster. |
| `GrowthDefrag.NothingFitsExact` | src/linux_defragger_engine.c:3062-3087 | Whether any layout in physical order fits does not depend on the listing. |
| `GrowthDefrag.Admit` | src/linux_defragger_engine.c:2927-3012 | The read-only phase, every verdict by its exact condition: a percentage outside 1 to 25, a layout that keeps the promise, a misreported one, no regular file, too little space for reserve and workspace; everything else is admitted. |
| `GrowthDefrag.PlanAndLay` | src/linux_defragger_engine.c:3056-3394 | After preparation: no workspace exactly under the condition of WorkspaceExact, no fit exactly when there is one and no layout in physical order fits below it; the exit for a changed size only when sizes disagree; a completed run with findable records keeps the promise of the preflight and the physical order. |
| `GrowthDefrag.FirstRecordsLaid` | src/linux_defragger_engine.c:2859-3394 | After a completed layout, equal records or not, the first record of every path and kind that owns clusters is one run. |
| `GrowthDefrag.GrowthDefragVolume` | src/linux_defragger_engine.c:2927-3400 | The whole operation on every scan: each verdict of the read-only phase exactly under its condition and without writing (so a second run writes nothing); every other request is prepared, and `prepared` is the one layout PreparesToOne names, reached by the logged transactions; no workspace and no fit are refused exactly under their conditions on it, with nothing more written; otherwise the run stops on request, ends with the exit for a changed size only when sizes disagree, or completes, with the first record of every path and kind at a planned target; with findable records it then satisfies the preflight. Without bad clusters, or when they are affordable, an admitted run is never refused. |
| `GrowthLimits.LostWorkspace` | src/linux_defragger_engine.c:2994-3061 | A volume of six clusters whose last one is bad and a file of two clusters: admitted, with no room for the workspace. |
| `GrowthLimits.LostFit` | src/linux_defragger_engine.c:2994-3082 | A packed volume of eight clusters with cluster 3 bad: admitted at 25 percent, with room for the workspace, and no layout fits below it. |
| `GrowthLimits.EmptyTwin` | src/linux_defragger_engine.c:2859-2876 | A file of two clusters after an empty record of the same path: the planned size is not the size of the first match. |
| `GrowthLimits.Unstopped` | src/linux_defragger_engine.c:2994-3400 | Without stop requests the end of an admitted run is decided: no workspace, no fit for the prepared layout, completed or changed size, each exactly under its condition. |
| `GrowthLimits.AllFallShort` | src/linux_defragger_engine.c:2927-3400 | The whole operation on these three volumes ends without a workspace, without a fit and with the exit for a changed size. |
| `FileDefrag.FindFreeRun` | src/linux_defragger_engine.c:1352-1370 | The lowest run of free clusters not promised to another file of the batch, or none exactly when there is none. |
| `FileDefrag.PlanFileBatch` | src/linux_defragger_engine.c:3971-4028 | First fit in list order: each fragmented file goes whole to the lowest run free beside those promised before it and is passed over only when there is none; the moves are legal; a batch ends early only at the end of the list. |
| `FileDefrag.FirstFitUnique` | src/linux_defragger_engine.c:3971-4028 | Layout and list determine the plan: any two first fits over the same files have the same moves. |
| `FileDefrag.DefragFilesBatched` | src/linux_defragger_engine.c:3946-4061 | Every moved file was fragmented and ends contiguous, all other chains are unchanged, no transaction touches what an earlier one moved or filled or any directory; up to the cursor every fragmented file was moved or never had a run left for it, beyond it nothing moved; each transaction is the first fit of its layout, with at most the requested number of files and fewer only at the end of the list or of the budget; the cursor stops short of the end only at the file limit, for a batch size of zero or on request. |
| `FatScan.ScanIsGood` | src/linux_defragger_engine.c:989-1325 | A volume that scans: its chains follow the table, are disjoint, and together are exactly the clusters the table calls allocated; free clusters are exactly the zero entries. |
| `FatJournal.BuildMap` | src/linux_defragger_engine.c:1821-1850 | Accepts exactly the move lists that are one-to-one renamings onto fresh in-range clusters, and then returns the map they denote. |
| `FatJournal.BuildPredecessorTable` | src/linux_defragger_engine.c:1852-1864 | Fails exactly when two entries name the same cluster; otherwise the table lists for every cluster the entry that links to it. |
| `FatRelocation.EntryRenamed` | src/linux_defragger_engine.c:1922-1997 | In the completed volume the entry of every allocated cluster is found at its image and holds the renamed link. |
| `FatRelocation.AreaRenamed` | src/linux_defragger_engine.c:1866-1997 | Directory areas move with their clusters, recorded entries name the images of the clusters they named, every other cell is unchanged. Which entries are recorded is what EveryCellRead and NothingElseRead say. |
| `FatMeaning.RelocationScans` | src/linux_defragger_engine.c:1866-1997 | If no link lands in the reserved range, the completed volume scans to the renamed records and references, from the renamed root. |
| `FatMeaning.ReservedLinkFails` | src/linux_defragger_engine.c:703-706 | If some link lands in the reserved range, the completed volume no longer scans. |
| `FatMeaning.RelocationPreservesMeaning` | src/linux_defragger_engine.c:1866-1997 | The completed volume scans if and only if no moved non-first cluster goes to a reserved number; it then scans to exactly the renamed state and its layout is the relocated layout. EntriesFollow says the same entry by entry. |
| `FatReferences.EveryCellRead` | src/linux_defragger_engine.c:1187-1294 | A scan records a reference for every dot entry and every named entry with a first cluster, and a file record with its path, chain and size for every named one, in every directory reachable from the root. |
| `FatReferences.NothingElseRead` | src/linux_defragger_engine.c:1187-1294 | Every reference and every record of a scan comes from a live entry of a directory reachable from the root. |
| `FatReferences.ChainRead` | src/linux_defragger_engine.c:989-1015 | A chain is read exactly when there is one, said with the reserved, bad and end values of the three table widths as numbers. |
| `FatReferences.RecordPasses` | src/linux_defragger_engine.c:1270-1284 | A named entry is accepted exactly when its chain reads, shares no cluster with what was claimed before and, unless it is a directory, is exactly long enough for its size: one cluster less would be too short. |
| `FatReferences.DepthLimit` | src/linux_defragger_engine.c:1187-1189 | Directories nest at most 128 deep. |
| `FatEntries.EntriesFollow` | src/linux_defragger_engine.c:1866-1997 | Every live entry of every directory is found again in the place its block went to: dot entries and named ones name the cluster that the one they named went to, and nothing else about any entry changes. |
| `FatEntries.NamesFollow` | src/linux_defragger_engine.c:1866-1997 | Every entry that named the first cluster of a file or directory, "." and ".." included, names its new first cluster afterwards. |
| `FatEntries.CopiesFollow` | src/linux_defragger_engine.c:905-985 | With mirroring every copy of the table is updated alike, without it only the active one; a moved root is recorded in every boot sector. |
| `FatMeaning.FileContentsPreserved` | src/linux_defragger_engine.c:1922-1997 | Path, size and the contents of every regular file survive a transaction. |
| `FatTransaction.ScannedLinksUnique` | src/linux_defragger_engine.c:1852-1864 | On a volume that scans, no two table entries name the same cluster, so the predecessor table never fails there. |
| `FatTransaction.JournalAlwaysMade` | src/linux_defragger_engine.c:1866-1920 | For a volume that scans and a legal move list the journal builder never exits. |
| `FatTransaction.ReaderAcceptsExactly` | src/linux_defragger_engine.c:1748-1752 | The journal reader accepts a written journal if and only if the root directory is a cluster chain; every FAT12 and FAT16 journal is refused. |
| `FatTransaction.ReservedClusterCounterexample` | src/linux_defragger_engine.c:703-706 | On the largest FAT12 volume a legal move of a second cluster to the last cluster leaves a volume the engine can no longer scan. |
| `VolumeRuns.SafeIffReadable` | src/linux_defragger_engine.c:989-1015 | The condition on table links equals a condition on the planned layout: no cluster that is linked to gets a reserved number. |
| `VolumeRuns.TransactionExact` | src/linux_defragger_engine.c:2124-2134 | Of all legal move lists, exactly those whose planned layout is readable leave a volume that scans again. |
| `VolumeRuns.Transact` | src/linux_defragger_engine.c:2124-2134 | Such a transaction on a volume that scans leaves a volume that scans, with the relocated layout. |
| `VolumeRuns.CompactExecuteMoves` | src/linux_defragger_engine.c:2124-2134 | Predecessor table, journal and completion together compute that transaction. |
| `VolumeRuns.SmallIsSafe` | src/linux_defragger_engine.c:703-706 | Where no cluster number is reserved, every lawful run is readable throughout. |
| `VolumeRuns.AfterTransactions` | src/linux_defragger_engine.c:2124-2134 | Any lawful run that stays readable is carried out on the volume: the result scans and has the layout the run predicts. |
| `VolumeRuns.RunKeepsFiles` | src/linux_defragger_engine.c:2414-2499 | Over any such run no file or directory is lost, renamed or resized, and no regular file changes its contents. |
| `PlannerVolumes.PlansCarryOver` | src/linux_defragger_engine.c:2124-2134 | Where the planned layouts stay readable, the layout a planner ends with is the layout a rescan of the real volume returns, with the same files. |
| `PlannerVolumes.EveryPlanCarriesOver` | src/linux_defragger_engine.c:703-706 | On a volume without reserved cluster numbers this holds for every planner. |
| `PlannerVolumes.DownwardIsSafe` | src/linux_defragger_engine.c:2414-2499 | A lawful run that only moves downward from a readable layout stays readable, reserved numbers or not. |
| `PlannerVolumes.CompactOnVolume` | src/linux_defragger_engine.c:2414-2499 | Compact on any volume that scans: the rescanned result has the planned layout and the same files, each transaction is the one its layout determines, and the run ends as CompactVolume states. |
| `PlannerVolumes.StagingExact` | src/linux_defragger_engine.c:3219-3253 | Parking an object in the workspace is safe if and only if the object is a single cluster or its last cluster lands below the reserved numbers. |
| `StaleReferences.StaleReferencesSuffice` | src/linux_defragger_engine.c:1886-1906 | With directory references captured once, every later journal of a batched pass equals the one made from a fresh scan. |
| `FatCrash.WriteUpdates` | src/linux_defragger_engine.c:948-987 | The table updates of one phase reach every written copy, and every write issued is one the journal covers. |
| `FatCrash.WriteCopies` | src/linux_defragger_engine.c:657-685 | The block copies of the transaction, source by source; no source is overwritten. |
| `FatCrash.WritePatches` | src/linux_defragger_engine.c:1403-1460 | The directory patches of the journal, each covered by it. |
| `FatCrash.WriteBoots` | src/linux_defragger_engine.c:1493-1515 | The root cluster in the boot sector and its backup, covered by the journal. |
| `FatCrash.CompleteJournal` | src/linux_defragger_engine.c:1922-1997 | Writing the phases in order computes the completed volume, and every single write is covered by the journal. |
| `FatCrash.RedoIsIdempotent` | src/linux_defragger_engine.c:1922-2006 | Completing the journal from any state that differs only in covered places gives the volume of an uninterrupted run. |
| `FatCrash.RecoveryHealsMirrors` | src/linux_defragger_engine.c:948-987 | Recovery leaves mirrored tables equal even after an interruption left them different. |
| `FatCrash.RecoveryCompletes` | src/linux_defragger_engine.c:1922-2006 | After any number of attempts, each cut with any subset of its writes on disk in any order, one more completion leaves exactly the volume of an uninterrupted transaction. |
| `FatCrash.IssuedIsAttempt` | src/linux_defragger_engine.c:1922-2006 | Any selection of the writes a completion issues, in any order, is such an attempt. |
| `FatTable.EntryInside` | src/linux_defragger_engine.c:714-734 | For every cluster below the entry count the packed entry lies inside the table, so the bounds exits of the decoder are unreachable. |
| `FatTable.DecodeReadsOwn` | src/linux_defragger_engine.c:720-734 | Decoding a FAT12, FAT16 or FAT32 entry is the little-endian value of exactly the half bytes that belong to it. |
| `FatTable.PutChangesOwn` | src/linux_defragger_engine.c:906-935 | Writing an entry changes only its own half bytes, to the digits of the value; FAT32 keeps its reserved half byte. |
| `FatTable.PutUpdatesOne` | src/linux_defragger_engine.c:906-935 | After a write the decoded table has the masked value at that cluster and is unchanged at every other. |
| `FatTableWrites.PutAllDecodes` | src/linux_defragger_engine.c:906-952 | A list of single writes refines the map from cluster to value: the decoded copy is the updates folded in order. |
| `FatTableWrites.BatchDecodes` | src/linux_defragger_engine.c:953-987 | A sector-batched FAT32 update decodes, at every entry where the copy agreed with the loaded table, to the folded table. |
| `FatTableWrites.ReservedBits` | src/linux_defragger_engine.c:953-987 | Where the two ways of writing differ: single writes keep every reserved half byte, a batch clears it in exactly the sectors it writes. |
| `FatTableWrites.Tables.constructor` | src/linux_defragger_engine.c:844-852 | The loaded table is the decoded active copy. |
| `FatTableWrites.Tables.WriteEntry` | src/linux_defragger_engine.c:906-935 | Every mirrored copy (or the active one) gets the single write, no other copy changes, the loaded table follows; outside the table nothing is written. |
| `FatTableWrites.Tables.WriteSingly` | src/linux_defragger_engine.c:948-953 | The updates up to the first one outside the table are written one by one to every written copy. |
| `FatTableWrites.Tables.WriteBatched` | src/linux_defragger_engine.c:954-987 | Sorted, de-duplicated and coalesced sector writes: touched sectors hold the loaded entries, every other word is as before; an update outside the table leaves the disk untouched. |
| `FatTableWrites.Tables.ApplyUpdates` | src/linux_defragger_engine.c:948-987 | Single writes leave every written copy as the fold of single writes, a batch leaves the loaded entries in the touched sectors and every other word as it was; either way a copy decodes to the same table at every entry where it agreed with the loaded one, and the loaded table stays equal to the active copy. |
| `FatCopy.BuildExtents` | src/linux_defragger_engine.c:549-569 | The extents name exactly the listed clusters at their buffer positions and are maximal runs. |
| `FatCopy.ReadExtents` | src/linux_defragger_engine.c:582-641 | Whatever order the workers finish in, the buffer holds each listed cluster at its position. |
| `FatCopy.WriteExtents` | src/linux_defragger_engine.c:643-655 | Each listed cluster gets its buffer position; no other cluster changes. |
| `FatCopy.CopyMapping` | src/linux_defragger_engine.c:657-685 | Chunked, coalesced and disk-sorted copying equals copying the whole mapping at once, for any amount of memory. |
| `FatCopy.MappedIsCopyBlocks` | src/linux_defragger_engine.c:657-685 | The buffered copy of the moves of a journal is the block-by-block copy used by the transaction. |
| `NtfsRunlist.SignedMinBytes` | gui/ntfs_engine.py:348-356 | The shortest two's complement encoding of at most eight bytes, or an error. |
| `NtfsRunlist.UnsignedMinExact` | gui/ntfs_engine.py:359-370 | Lengths are encoded exactly when they are positive and fit a signed 64-bit value, and then read back as themselves. |
| `NtfsRunlist.EncodeRunlist` | gui/ntfs_engine.py:406-420 | The loop computes the specified encoding. |
| `NtfsRunlist.EncodeExact` | gui/ntfs_engine.py:406-420 | Encoding succeeds exactly when every length is positive and every length and delta fits eight signed bytes. |
| `NtfsRunlist.DecodeRunlist` | gui/ntfs_engine.py:373-403 | The loop computes the specified decoding, errors included. |
| `NtfsRunlist.RunlistRoundTrip` | gui/ntfs_engine.py:373-420 | Decoding an encoded runlist followed by any padding returns the same runs, sparse runs and negative or zero deltas included. |
| `NtfsRunlist.AnalyseRunlist` | gui/backends/ntfs.py:59-83 | The generator of the analyser computes its specified decoding. |
| `NtfsRunlist.AnalyserAgrees` | gui/backends/ntfs.py:59-83 | Whatever the engine decodes, the analyser decodes to the same runs. |
| `NtfsRunlist.AnalyserReadsEncodings` | gui/backends/ntfs.py:59-83 | The analyser reads every encoder output back, whatever padding follows. |
| `NtfsRunlist.AnalyserIsLaxer` | gui/backends/ntfs.py:59-83 | The converse fails: two inputs the engine rejects and the analyser reads. |
| `NtfsRunlist.LowerIsShorter` | gui/ntfs_engine.py:1402-1433 | A single run placed lower never needs a longer mapping. |
| `NtfsBitmap.SetRange` | gui/ntfs_engine.py:751-771 | Byte-wise setting equals setting each cluster of the range; every other bit is unchanged. |
| `NtfsBitmap.HighestUsedBefore` | gui/ntfs_engine.py:829-849 | Byte-skipping search for one past the highest used cluster below the limit. |
| `NtfsBitmap.FreeRunsBefore` | gui/ntfs_engine.py:852-886 | Exactly the maximal free runs below the limit, in order. |
| `NtfsBitmap.FindFreeRun` | gui/ntfs_engine.py:889-895 | A gap with room for the request that starts no later than any place with such room; none exactly when there is no room. |
| `NtfsBitmap.NextFreeRun` | gui/ntfs_engine.py:898-931 | The first maximal free run from the start on, below the limit. |
| `NtfsCompact.SelectSource` | gui/ntfs_engine.py:1436-1481 | The best complete movable stream above the gap that fits it by clusters and mapping capacity: none that fits has more clusters, and none with as many has a run that ends above all of its runs; none exactly when no stream fits. NtfsPlanned shows that neither capacity test ever refuses. |
| `NtfsCompact.NtfsLayout.MoveExtent` | gui/ntfs_engine.py:1276-1304 | The stream becomes one run at the gap, its old extents become free, the allocated count is unchanged and streams stay disjoint and allocated. |
| `NtfsCompact.MoveAndTrim` | gui/ntfs_engine.py:2048-2068 | Moving a stream and rescanning only when the old top was released keeps the exact high-water mark, and every gap passed so far stays unfillable. |
| `NtfsCompact.Compact` | gui/ntfs_engine.py:2025-2086 | The single pass terminates in a fixed point: unless stopped on request, no free run below the final high-water mark can hold any complete movable stream above it. Each move fills the lowest complete gap that can be filled, from cluster 1 on, with the largest stream that fits it and, of equally large ones, the one that ends highest, and exchanges exactly these clusters; each stream is unchanged or one run lower than before, the logged moves account for all changes, the allocated count is unchanged and the high-water mark never rises. |
| `NtfsPass.PassDetermined` | gui/ntfs_engine.py:2025-2086 | A finished pass is determined by the bitmap and the streams: any two make the same moves and leave the same bitmaps. |
| `NtfsFixups.ApplyFixups` | gui/ntfs_engine.py:423-436 | The loop computes the specified fixup reading, with its errors. |
| `NtfsFixups.PrepareFixups` | gui/ntfs_engine.py:439-456 | The loop computes the specified sealed image. |
| `NtfsFixups.FixupsRoundTrip` | gui/ntfs_engine.py:423-456 | A prepared record reads back to the original outside the update-sequence array and carries the next sequence number. |
| `NtfsFixups.TornIsDetected` | gui/ntfs_engine.py:423-436 | A record whose sectors mix two images with different sequence numbers is one of the two or is rejected. |
| `NtfsRecord.CoalesceRuns` | gui/ntfs_engine.py:969-983 | The loop computes the specified coalescing. |
| `NtfsRecord.ReadAttributes` | gui/ntfs_engine.py:459-509 | The generator computes the specified attribute list or error. |
| `NtfsFormat.ParsesExactly` | gui/ntfs_engine.py:467-508 | The same for one attribute: type, name, flags, range of virtual clusters, mapping pairs and sizes, each at its byte offset. |
| `NtfsFormat.RecordParsesExactly` | gui/ntfs_engine.py:459-509 | A record parses to a list of attributes if and only if its bytes are laid out for that list: every field at its offset, little-endian, up to the end mark. |
| `NtfsFormat.AssembledReadsBack` | gui/ntfs_engine.py:459-509 | A record assembled from a header, attributes laid out field by field and an end reads back as these attributes. |
| `NtfsFormat.MappingExample` | gui/ntfs_engine.py:373-403 | One run of 24 clusters at cluster 0x5634, byte by byte. |
| `NtfsRecord.RewriteReparses` | gui/ntfs_engine.py:1551-1581 | A rewritten record lists the same attributes, with the coalesced runs, grown length and re-read name in one of them and the later ones moved up. |
| `NtfsRecord.UpdatedRecordReparses` | gui/ntfs_engine.py:1551-1581 | The same after sealing, writing, reading back and parsing again. |
| `NtfsRecord.UpdatedName` | gui/ntfs_engine.py:1551-1581 | A name stored before the mapping pairs survives the rewrite. |
| `NtfsRecord.NameLost` | gui/ntfs_engine.py:1551-1581 | A name stored behind the new mapping pairs is overwritten with zeros. |
| `NtfsRecord.CapacityExact` | gui/ntfs_engine.py:1541-1549 | Every mapping within the capacity fits the record if and only if the alignment gap of the attribute is no larger than the odd free bytes of the record; 8-aligned attributes always meet this. |
| `NtfsRecord.CapacityKept` | gui/ntfs_engine.py:1541-1581 | Rewriting an aligned attribute leaves its capacity as it was. |
| `NtfsRecord.UpdatedRecordRuns` | gui/ntfs_engine.py:1551-1581 | The in-place rewrite computes the specified record, errors included. |
| `NtfsRecord.SwitchIsDetected` | gui/ntfs_engine.py:439-456 | While the record is being replaced, a device holding sectors of both images holds the old one, the new one, or a record every reader rejects. |
| `ExtentCopy.CopyExtents` | gui/ntfs_engine.py:1589-1626 | The destinations read, byte for byte, as the sources did and nothing else changes, however both extent lists are cut. |
| `NtfsMove.BitmapPatchesForRuns` | gui/ntfs_engine.py:774-793 | The patches are excerpts of the bitmap that hold every byte the runs touch. |
| `NtfsMove.PrepareMove` | gui/ntfs_engine.py:1807-1835 | Snapshots and data copy before the journal: the journal holds the given dirty volume records beside the present ones, data outside the destinations is unchanged, and the destinations read as the sources. |
| `NtfsMove.CommitMove` | gui/ntfs_engine.py:1830-1863 | Dirty, reserve, switch, release and clean, with the device at every sync as specified and the memory bitmap level with the disk. |
| `NtfsMove.RecoverLoaded` | gui/ntfs_engine.py:1746-1787 | From any resumable state recovery ends in the moved volume when the record is the new one and in the original volume otherwise. |
| `NtfsMove.MoveIsAtomic` | gui/ntfs_engine.py:1746-1863 | After a power failure anywhere in the move, with torn record sectors, and any number of them in recovery, finishing recovery leaves exactly the original device or exactly the finished one, bitmap and volume records included; NtfsTransaction reads the records. |
| `NtfsTransaction.NewRecord` | gui/ntfs_engine.py:1551-1581 | Builds the new image of a scanned record for the new runs, or fails exactly when there is none. |
| `NtfsTransaction.SwitchReads` | gui/ntfs_engine.py:1551-1581 | The new image differs from the old one and reads, through fixups and attribute list, as the same attributes with the coalesced new runs in one of them. |
| `NtfsTransaction.SwitchTorn` | gui/ntfs_engine.py:439-456 | Sectors of both images together are the old image, the new image or a record that does not read. |
| `NtfsTransaction.InterruptedReads` | gui/ntfs_engine.py:1746-1863 | At every power failure in a move the record on the device is the old one, the new one or unreadable. |
| `NtfsTransaction.RecoveredMapping` | gui/ntfs_engine.py:1746-1863 | After recovery the record reads either with the old runs, whose clusters are allocated and the destinations free, or with the new runs, whose clusters are allocated and the released ones free; no other bit and no data changed, and the two images are different. |
| `NtfsTransaction.RecoveredContents` | gui/ntfs_engine.py:1746-1863 | After any such failure and recovery the stream, read through the runs the recovered record maps, has the bytes it had before the move. |
| `NtfsContents.CopiedContents` | gui/ntfs_engine.py:1589-1626 | After the copy, logical byte for logical byte, the stream reads as before through its old runs and through its new ones. |
| `NtfsTransaction.MoveExtent` | gui/ntfs_engine.py:1807-1863 | The whole move of a stream to new runs: refuses without writing exactly when the record cannot take the new runs; otherwise the record maps the new runs, the bitmap agrees, read through these runs the stream has the bytes it had through the old ones, data outside the formerly free destinations is unchanged, and every sync is one the crash theorems cover. The six syncs are told by the arguments: dirty volume records from the second to the fifth and the original ones at both ends, destinations in use from the third on, the new record from the fourth on, released clusters free from the fifth on; whatever a crash leaves between two of them is marked dirty unless record and bitmap are the old ones or the new ones. |
| `NtfsPlanned.PlanIsTaken` | gui/ntfs_engine.py:1402-1481 | For a planned stream backed by an aligned record, the record takes the new mapping: the second capacity test and the error of the rewrite are unreachable. |
| `NtfsPlanned.MovedIsBacked` | gui/ntfs_engine.py:1541-1581 | After the switch the moved stream is again backed by its record, with the same capacity. |
| `NtfsMapping.OneRunFits` | gui/ntfs_engine.py:348-420 | The bytes of a stored mapping are enough for the same clusters as one run no higher than the first, whatever sizes its fields were written with. |
| `NtfsPlanned.NeverGrows` | gui/ntfs_engine.py:1551-1581 | A planned move never makes its record grow. |
| `NtfsPlanned.CapacityNeverRefuses` | gui/ntfs_engine.py:1402-1433 | For streams backed by aligned records the capacity test of the planner never refuses: a stream fits exactly when its clusters do. |
| `NtfsPlanned.OthersBacked` | gui/ntfs_engine.py:1551-1581 | Streams in other attributes of the same record stay backed. |
| `NtfsPlanned.PassTaken` | gui/ntfs_engine.py:2025-2086 | Every move of a pass is taken: from backed streams the stored records can be rewritten move by move, and all streams are backed at the end. |
| `NtfsPlanned.CompactStored` | gui/ntfs_engine.py:2025-2086 | The whole pass on stored records: each move rewrites the record of its stream and no other, all streams are backed afterwards; each move takes the largest complete stream with room in the lowest gap that has room for one, the highest of equals, whatever its mapping needs; and an unstopped pass leaves no gap below the high-water mark with room for a complete movable stream above it. |
| `ExfatMove.FollowChain` | gui/exfat_engine.py:85-95 | The loop computes the specified chain or error. |
| `ExfatMove.MoveTailCluster` | gui/exfat_engine.py:253-295 | Refuses exactly an upward move or an occupied destination, without writing; otherwise copies the block, passes through the synced states of copy, preparation, switch and release, and ends with the new chain holding the blocks of the old one; only the destination block changed. The last entry is 0xFFFFFFFF when the move wrote it and unchanged otherwise, and the table alone, read without a count, gives exactly the new chain if and only if the move wrote it or it ended the chain before. |
| `ExfatMove.TailMoveIsAtomic` | gui/exfat_engine.py:194-295 | In all three commit shapes, after a power failure anywhere and any number of them in recovery, recovery never gives up and ends in exactly the old or exactly the moved volume. |
| `ExfatMove.MovedMeans` | gui/exfat_engine.py:253-295 | The moved volume reads as the new chain, which is exactly allocated; the released cluster is free and unlinked; forward recovery and the finished move agree on both. The last entry after recovery is 0xFFFFFFFF, and the chain read without a count is exactly the new one; after the move this holds exactly when the move wrote the last entry or it was no cluster number before. |
| `ExfatMove.WalkChain` | gui/exfat_engine.py:85-97 | Following the table without a count, as a loop, with its error for a cycle. |
| `ExfatMove.ContentsMoved` | gui/exfat_engine.py:253-295 | On the copied data the blocks along the new chain are the blocks along the old one; the old chain keeps its blocks whatever the destination holds. |
| `ExfatMove.RecoveryKeepsContents` | gui/exfat_engine.py:194-295 | Wherever the power fails, the recovered volume reads as a chain whose blocks are those of the object, closed by 0xFFFFFFFF if it is the new one; a failure during the copy recovers to the original volume, with anything in the destination. |
| `HfsMove.ApplyPatches` | gui/apple_engine.py:484-487 | The loop computes the specified patched device. |
| `HfsMove.RecoverVolume` | gui/apple_engine.py:597-637 | Compares every descriptor and completes or rolls back as specified. |
| `HfsMove.FinishedIsMoved` | gui/apple_engine.py:535-637 | An uninterrupted run ends where a completed recovery ends. |
| `HfsMove.TransactionIsAtomic` | gui/apple_engine.py:535-637 | After a power failure in the transaction that follows the copy and any number of them in recovery, recovery ends with the moved device when all descriptors were new or the switch recorded at the failure, and otherwise, byte for byte, with the device as it was after the copy. |
| `HfsFork.MakeBitmapStates` | gui/apple_engine.py:517-526 | The staged bitmap adds exactly the destination, the final one then removes exactly the source. |
| `HfsFork.Pieces` | gui/apple_engine.py:114-133 | The device ranges behind a logical range of a fork hold exactly its bytes in order; an error exactly when the fork does not reach that far, so the exit for a logical hole is unreachable. |
| `HfsFork.ExtentRoundTrip` | gui/apple_engine.py:56-65 | A packed extent descriptor reads back as the same extent. |
| `HfsPatches.ForkPatches` | gui/apple_engine.py:147-156 | The patches store exactly the new bytes at the logical range and touch nothing else; every patch changes something. |
| `HfsPatches.BitmapPatches` | gui/apple_engine.py:450-468 | The patches store the new bitmap through the allocation file and cover exactly the bytes that change. |
| `HfsVolume.SlotPlace` | gui/apple_engine.py:489-498 | The bytes of an extent descriptor are those of the extents-overflow file or of the catalog file, whichever the reference names, from its offset on. |
| `HfsVolume.DescriptorPatches` | gui/apple_engine.py:489-498 | The patches store the descriptors of one contiguous run, or fail exactly when the block counts disagree. |
| `HfsVolume.HeaderPatches` | gui/apple_engine.py:470-474 | The patches store the count in both headers and cover every byte of it. |
| `HfsVolume.StageInsideFinal` | gui/apple_engine.py:450-526 | The final bitmap patches cover every byte the staged patches touch. |
| `HfsVolume.BuiltReady` | gui/apple_engine.py:535-563 | The journal a move builds is ready for its device: its lists are taken from it, are disjoint, and the final ones cover the staged ones. |
| `HfsFork.FinalCoversStage` | gui/apple_engine.py:517-526 | Every byte the staged bitmap changes also differs in the final one. |
| `HfsFork.FinalKeepsFree` | gui/apple_engine.py:517-526 | The final bitmap exchanges source for destination and has the free count of the original. |
| `HfsFork.RebuiltIsContiguous` | gui/apple_engine.py:489-498 | The rebuilt descriptors keep every extent length and together are one contiguous run. |
| `HfsRelocation.CopyBlocks` | gui/apple_engine.py:501-514 | Every destination block holds what its source block held, even if the lists overlap; no byte outside the destination changes. |
| `HfsRelocation.BuildJournal` | gui/apple_engine.py:535-563 | Builds the journal, or fails exactly when the destination is not free, the descriptors do not add up to the fork or the free count is too small. |
| `HfsRelocation.ReadyWhileCopying` | gui/apple_engine.py:535-572 | The journal stays ready for the device at every moment of the copy, because the destination is free and holds no metadata. |
| `HfsRelocation.RunTransaction` | gui/apple_engine.py:573-594 | The device at each sync and the journal stage in force in each stretch: a stage is recorded only after its bytes are on the device. |
| `HfsRelocation.MovedHolds` | gui/apple_engine.py:535-594 | The moved device holds the fork as one run at the destination with its contents unchanged, a bitmap that exchanged source for destination, the same number of allocated blocks and the free count in both headers; every byte outside destination, descriptors, bitmap and counters is unchanged. |
| `HfsRelocation.MoveOne` | gui/apple_engine.py:535-594 | The whole move: fails exactly as BuildJournal does, without writing; otherwise ends with the fork relocated as MovedHolds states, having passed through exactly the listed stretches. |
| `HfsRelocation.RecoverDevice` | gui/apple_engine.py:597-637 | Refuses without a journal file; otherwise repairs the device as specified for the recorded stage and removes the file. |
| `HfsRelocation.MoveSurvives` | gui/apple_engine.py:535-637 | Wherever the power fails in a move, copy included, and however often in recovery, the recovered device holds the old fork, with every byte outside the free destination as it was, or the relocated one, contents, bitmap and the counts at byte 48 of both headers included: always the old one before the switch, always the relocated one after it. |
| `MapRanges.MergeRanges` | gui/backends/ranges.py:21-32 | Separated ascending ranges that cover exactly the units of the ranges with a non-negative start. |
| `MapRanges.ComplementRanges` | gui/backends/ranges.py:35-52 | Exactly the uncovered units, as separated ranges; an error exactly for a negative total. |
| `MapCells.CellsPartition` | gui/backends/ranges.py:112-116 | Cell boundaries start at 0, rise strictly and end at the total. |
| `MapCells.AggregateStates` | gui/backends/ranges.py:119-175 | The per-unit reference: the request clamped to between one cell and one per unit; each cell counts its units by state, missing and foreign states count as unknown. |
| `MapCells.MapCounts` | gui/backends/ranges.py:112-165 | Cell i of n covers the units from i times total over n on; its free, used, unknown and bad counts are the numbers of its units in state 0, 1, 2 and 3; the totals likewise. |
| `MapCells.KnownUnits` | gui/backends/ranges.py:133-149 | Of the values handed over, 0, 1 and 3 keep their meaning and everything else, missing values included, is unknown. |
| `MapCells.MapIsUnique` | gui/backends/ranges.py:119-336 | Cells and totals are determined by the unit states, so any two ways of computing the map agree. |
| `MapCells.MapPartitions` | gui/backends/ranges.py:112-175 | Neighbouring cells meet, counts add up to the size of the cell, totals to the volume. |
| `MapStates.NormaliseRanges` | gui/backends/ranges.py:178-196 | Fails exactly when two ranges share a unit or one that holds units has no valid state; otherwise every unit has the state of its range and unknown elsewhere. |
| `MapStates.AggregateRanges` | gui/backends/ranges.py:199-260 | The linear sweep gives the map of the one state sequence the ranges describe, or the error above. |
| `MapStates.RangesEqualUnits` | gui/backends/ranges.py:119-260 | The range sweep and the per-unit reference return the same cells and totals. |
| `MapBitmaps.CountSetBits` | gui/backends/ranges.py:263-284 | Masked first and last bytes and whole bytes between count exactly the set bits of the range. |
| `MapBitmaps.AggregateBitmap` | gui/backends/ranges.py:287-336 | The map of the unit states of a reserved prefix followed by the bitmap; an error exactly when the bitmap is too short. |

## Left out

- FatCrash.WriteCopies: copies block by block; `FatCopy` proves the buffered copy equal to it, but the two are not one method.
- FatCrash.WriteUpdates: works on decoded table values; `FatTable` and `FatTableWrites` prove the packed bytes refine them.
- FatCopy.CopyMapping: works in whole clusters, so byte offsets, alignment and the memory limit in bytes are not modelled; the RAM limit appears as a number of clusters.
- GrowthDefrag.GrowthDefragVolume: requires a cluster count below the size type, as the budget arithmetic of the source does; which of two disagreeing records is met first is not stated.
- FileDefrag.DefragFilesBatched: takes the caller's sorted record list as given; the sort order itself is not modelled.
- FatScan.ScanIsGood: cells are read as first cluster plus the rest; long-name decoding, checksums and path limits of the scan are not modelled.
- NtfsPlanned.CompactStored: the records it rewrites are the images of the switch; the data copy and the crash states of each single move are those of NtfsTransaction, and the two are not one method.
- NtfsCompact.Compact: works on the planner's view of streams; building that view from the MFT (record selection, hibernation and attribute-list blockers) is not modelled.
- NtfsMove.MoveIsAtomic: the journal file, device identity checks and volume-flag validation around it are not modelled.
- ExfatMove.TailMoveIsAtomic: assumes that an entry set is written at once; recovery after a torn set, which gives up, is not modelled.
- HfsRelocation.MoveOne: starts from the volume fields and descriptor references that loading and walking the trees produce; the walk itself is not modelled, and the consistency of the volume (separate metadata in allocated blocks, the fork's blocks its own) is assumed, as the engine does.
- HfsRelocation.CopyBlocks: buffers the payload as a list of blocks rather than one byte array.
- MapBitmaps.AggregateBitmap: the descriptive fields of the result (names, sizes, details) are not modelled.
- exFAT whole-object compaction and growth layout loops, `move_one` of the exFAT engine and its older journal schema.
- The HFS+ choice of fork and destination (`free_run` and the operation loop).
- `defragment` of the NTFS engine, which reuses the modelled move.
- `overlay_ranges`, which would only add another sweep of the kind proved for `aggregate_ranges`.
- The older single-file FAT journal, directory defragmentation and the FSInfo next-free hint.
- Textual journal parsing and writing; journals are values here.
- User interface, privileged helper, process control, live maps, progress output and RAM sizing.
- The ext, Btrfs, XFS, APFS, AFFS and HFS analysers and engines.
