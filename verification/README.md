# A verified model of the filesystem tree generator

The repository plans filesystem trees and streams of mutations in memory and then applies them.
This project models the in-memory planners, codecs and search loops, together with an inode-level
filesystem they are applied to, and proves what they promise for all inputs, all random draws and
all hash values. It is verified with `dafny verify dfyconfig.toml`.

## What is modelled

- **Ground** (`Wrappers`, `Sets`, `Strings`, `Sorting`, `Paths`). Canonical rooted paths are
  sequences of components. `Paths` proves that this is faithful: cleaning, joining, the parent of a
  path, the child test and the prefix splice on texts are the operations on sequences.
- **Mutation engine** (`Operations`, `VirtualTree`, `MutationNames`, `Draws`, `MutationState`,
  `Generation`). `MutationState` is the class with the node map, the name counter and four lazily
  rebuilt indexes. Its methods are proved against a step function on maps; the lemmas in
  `VirtualTree` and `MutationNames` say what steps and runs keep. Random draws are arbitrary values
  in their ranges.
- **The real side** (`FileSystem`, `RealEffects`, `RealOperations`, `Simulation`, `Execution`,
  `Baseline`). A filesystem maps paths to inode numbers and those to contents. `RealEffects` says on
  names, bytes and metadata what each operation leaves. It is stated exactly when real and virtual
  step agree, hard links included, and scan, generate and replay are put together.
- **Fault injection** (`Faults`, `Execution`). Rule states are mutated point by point; the first
  fault over a whole run is characterised, and resuming is shown to lose nothing.
- **Planner and application** (`PlanSpec`, `Planner`, `PlanApply`, `PlanGrowth`, `PlanRuns`,
  `PlanReplace`, `PlanLinks`, `Hardlinks`, `RandomFlow`). The recursive planner with aliased hard link groups, the
  two apply passes in three modes, and the observer of the diff package: predicted and observed
  groups are the same sets of paths.
- **Contents** (`ContentPatterns`, `CoverageContent`). Chunked write loops against a specification
  of every byte.
- **Coverage** (`Pairwise`, `CoverageNaming`, `CoveragePlan`, `CoverageCells`, `CoverageClasses`,
  `CoverageBuilder`, `CoverageEnumerator`, `CoverageSubTrees`, `CoverageACLs`, `CoverageApply`). The greedy covering array with in-place
  compaction, the deterministic names, and the plan builder. No path collides, whatever the hashes,
  and every pair of class values of every enabled sub-tree is realised in the plan.
- **ACLs** (`Acl`, `AclCodec`, `AclText`, `AclLists`, `AclResolve`). Binary and text codecs, their
  canonical order, and resolution with the mask rule of IEEE Std 1003.1e draft 17 (sections 23.4.2,
  23.4.13, 23.4.27 and 23.4.28).
- **Manifest** (`NormalLists`, `ManifestEntries`, `Manifest`, `ManifestPaths`, `ManifestPlan`,
  `ManifestReplay`, `ManifestShapes`, `ManifestBuild`, `ManifestReplans`, `ManifestApply`). The normal
  form, sealing and verification, which plans make a manifest, and the way from a plan to a manifest
  and back, for entries and whole plans.

Functions in these modules are the specifications; the methods beside them follow the loops and
updates of the source and are tied to the functions by their `ensures`.

## Where the code falls short, and exactly when

- Overwrites: the virtual step accepts an overwrite that starts beyond the end of its file, the real
  step refuses it (`Simulation.StepAgrees` states both acceptance conditions). Generated overwrites
  never do that.
- Attributes of the root: the scan does not read them, so the real side can remove one that the
  virtual side does not know. It is the other clause of `Simulation.StepAgrees`.
- Hard links: the virtual tree copies a node where the real one shares the inode. After an operation
  the trees agree if and only if it did not change a node whose inode has another name
  (`Simulation.StepAgrees`); a stream agrees throughout if and only if no operation does
  (`Execution.StreamAgrees`). A link followed by a non-empty append always makes them differ
  (`Execution.HardlinkThenAppendDiverges`).
- Repeated content is periodic across chunks if and only if the file fits one chunk of 65536 bytes
  or the block length divides 65536 (`ContentPatterns.PeriodicityCondition`).
- A binary ACL that is a bare header parses but is not what marshalling the result gives
  (`AclCodec.BareHeader`); `AclCodec.MarshalParse` says exactly when the bytes come back.
- Plan to manifest and back: mode 0 outside the base directory, metadata on links, data beside a
  content, empty attribute maps or ACL lists, unsorted ACL texts and unclean link targets do not come
  back. `ManifestReplay.EntryRoundTrip` and `ManifestReplans.PlanRoundTrip` have the exact conditions.
  Run-time predictions of contents never come back.
- The structure check of a plan's manifest takes absolute links into the base for manifest paths: it
  passes if and only if they lead to planned paths (`ManifestShapes.StructureOfPlan`), so plans with
  dangling links into the base do not build (`ManifestPlan.DanglingNeverBuilds`).
  `ManifestBuild.BuildScenarioManifest` has the exact condition for a whole plan.
- The structure check does not look at the order of hard links and their sources. A manifest it
  accepts applies if and only if each link stands after its source
  (`ManifestReplans.NormalManifestPlans`, `ManifestApply.ManifestPlanApplies`;
  `ManifestReplans.LinkBeforeSource` is an instance).

## Model

| member | source | states |
|---|---|---|
| Paths.CleanRender | mutate.go:973-981 | cleaning the text of a canonical path gives the path back, so paths can be treated as component sequences |
| Paths.CleanCanonical | operations.go:379-396 | whatever is cleaned is canonical: no empty component, no `.`, no `..`, no slash or NUL inside a component |
| Paths.RenderInjective | operations.go:379-396 | different canonical paths have different texts, so a map keyed by text is a map keyed by path |
| Paths.ChildTestIsStrictPrefix | mutate.go:973-981 | the string-prefix child test holds exactly for strict component prefixes (`/a` is no parent of `/ab`), root included |
| Paths.DirIsParent | mutate.go:959-971 | the directory part of a path's text is the text of its parent |
| Paths.JoinAppends | mutate.go:739-760 | joining a directory and a valid name by text appends one component |
| Paths.SpliceSwapsPrefix | mutate.go:859-877 | cutting the source text off and putting the destination text in front swaps exactly the component prefix |
| Paths.RelStringResolves | plan.go:235-244 | walking the text of a relative path from its start reaches its target, for all pairs of canonical paths |
| Paths.RelLeads | plan.go:235-244 | a link with that text leads to the target, since the text is relative |
| Paths.RenderLeads | plan.go:218-233 | a link with the text of a canonical path leads to that path from anywhere |
| Operations.NormalizePathFixpoint | operations.go:379-396 | a canonical path is its own normal form, the root only where it is allowed |
| Operations.NormalizePathOutput | operations.go:379-396 | normalised paths are canonical, and the root only appears where it is allowed |
| Operations.NormalizeProducesWellFormed | operations.go:215-377 | what normalisation returns satisfies every rule of its kind |
| Operations.WellFormedIsFixpoint | operations.go:215-377 | an operation is unchanged by normalisation if and only if it satisfies the rules of its kind |
| Operations.NormalizeIdempotent | operations.go:215-377 | normalising a normal form changes nothing, for every raw operation |
| VirtualTree.AncestorsAreDirectories | mutate.go:959-971 | in a tree every strict ancestor of a node is present and a directory, although only parents are checked |
| VirtualTree.StepRename | mutate.go:838-877 | an accepted rename, file or directory, is exactly the move of a subtree between unrelated paths |
| VirtualTree.RenameIsBijection | mutate.go:838-877 | source+suffix moves to destination+suffix for every suffix, nothing stays below the source, nothing was below the destination, the rest is untouched |
| VirtualTree.RenameBackRestores | mutate.go:838-877 | the reverse rename is accepted and restores the exact map |
| VirtualTree.StepKeepsTree | mutate.go:769-957 | every accepted operation keeps the tree invariant: root directory, parents present and directories, canonical paths, sizes not negative |
| VirtualTree.RunKeepsTree | mutate.go:769-957 | the tree invariant holds after every run in which rejected operations are skipped |
| VirtualTree.CreateThenDelete | mutate.go:776-836 | deleting what any create operation made restores the exact map |
| MutationNames.GeneratedNameInjective | mutate.go:762-767 | two generated names are equal only if their sequence numbers are, whatever their drawn part |
| MutationNames.StepKeepsUnused | mutate.go:739-767 | if no node bears a number from the counter on, no accepted operation that introduces a used name changes that, renames included |
| MutationNames.TakenNumbersNeedBearers | mutate.go:739-760 | pigeonhole: a stretch of taken numbers needs as many distinct nodes |
| MutationState.IndexUnique | mutate.go:288-323 | a set has one sorted duplicate-free listing, so a valid index is determined by the nodes |
| MutationState.RootIsFirst | mutate.go:685-696 | the root is the first element of a sorted index that holds it |
| MutationState.RotationCovers | mutate.go:399-427 | the rotation over the allowed kinds from any start tries every kind |
| MutationState.MutationState.RebuildPathIndexes | mutate.go:288-323 | the four cached indexes become the sorted duplicate-free key sets by type; nodes stay |
| MutationState.MutationState.InvalidatePathIndexes | mutate.go:280-286 | the cache is no longer trusted and nothing else changes |
| MutationState.MutationState.SortedPathsBelowRoot | mutate.go:685-696 | exactly the sorted key set without the root, through the cache |
| MutationState.MutationState.NextMutationName | mutate.go:762-767 | a valid name that bears the old counter, which advances by one |
| MutationState.MutationState.PlanUniquePath | mutate.go:739-760 | a free path below an existing directory; failure needs at least 128 distinct nodes with generated names; with none at or above the counter the first attempt succeeds |
| MutationState.MutationState.PlanOperation | mutate.go:429-683 | the planned operation has the drawn kind, is well-formed and accepted by the virtual step, and takes its owner, data lengths, sizes and permissions from the options; missing preconditions are reported only when the kind can miss them and always when it must; collisions need 128 nodes with generated names; a rename gives up only after 128 destinations inside the drawn directory; unknown kinds exactly are unsupported |
| MutationState.MutationState.PlanRename | mutate.go:508-534 | a planned rename never moves a directory into itself or onto a node; without nodes below the root it reports missing preconditions |
| MutationState.MutationState.PlanOverwriteRange | mutate.go:603-631 | a planned overwrite leaves the virtual state unchanged, since it stays inside its file |
| MutationState.MutationState.PlanNextOperation | mutate.go:399-427 | over the rotation: missing preconditions only when every allowed kind can miss them, always when every one must; every other error has the cause of its kind |
| MutationState.MutationState.DeleteSubtree | mutate.go:823-836 | the loop removes exactly the path and everything below it |
| MutationState.MutationState.RenameSubtree | mutate.go:859-877 | collect, delete and write loops amount to the subtree move |
| MutationState.MutationState.ApplyVirtualOperation | mutate.go:769-957 | refines the step function; a rejected operation leaves the nodes as they were |
| RealOperations.StepLeaves | mutate.go:1006-1253 | an accepted operation keeps a tree a tree and leaves exactly its effect, said on names, bytes and metadata: which byte an overwrite, append or truncate leaves at every position, what a new path reads back, the one metadata field that changes, where every name goes in a rename or delete, and everything else as it was |
| RealOperations.Disk.ApplyOperation | mutate.go:1006-1209 | the procedure with its checks in order: the real step with that effect, or an error with the filesystem unchanged |
| Simulation.StepAgrees | mutate.go:1006-1209 | hard links included: both sides accept the same operations but for overwrites that start beyond the end and attributes of the root nobody scanned; after an accepted one types, sizes and attribute names agree if and only if it did not change a node whose inode has another name |
| Simulation.LinkAgrees | mutate.go:803-821 | copying the node of a linked file mirrors sharing its inode at the moment of linking |
| Simulation.UnsharedNeverDiverges | mutate.go:769-957 | without shared inodes no operation is of that sort |
| Simulation.RenameAgrees | mutate.go:838-877 | both sides accept the same renames and agree afterwards |
| Generation.ValidateOptions | operations.go:164-188 | accepted if and only if counts are positive and the kinds are known, non-empty and distinct; each error names a rule that is broken |
| Generation.PlannedIsNormal | mutate.go:146-158 | what the planner returns is a fixpoint of normalisation whenever normalisation accepts it, and is then accepted by the virtual step |
| Generation.GenerateOperations | mutate.go:128-164 | invalid options exactly are refused; a returned stream has the requested length, allowed kinds, operations accepted by the virtual state they meet, and the owner, data lengths, sizes and permissions the options give; a planning failure comes with a good stream after which no kind could be planned; and with a kind that never lacks anything, no renames, no generated names and namespaced attributes in the baseline it succeeds |
| Generation.StopsOnly | mutate.go:399-427 | which planning errors a choice of kinds and a baseline rule out |
| Draws.RandomDataLength | mutate.go:983-989 | between one and the maximum, one when the maximum is not positive |
| Faults.FaultInjector.Before | faults.go:159-200 | one point advances every rule's count up to the one that fires and reports that rule |
| Faults.FirstFaultCharacterised | faults.go:159-225 | over every sequence of points the first fault falls on the least index where some rule reaches its n-th match and names the lowest such rule; without one no index is such |
| Faults.FirstFaultUnique | faults.go:159-225 | that index and rule are determined by the points and the profile |
| Execution.ApplyOperationsWithOptions | mutate.go:204-249 | index and profile errors leave the disk alone; otherwise disk and outcome are those of the replay |
| Execution.ResumeLosesNothing | mutate.go:204-249 | resuming at the failed index without faults ends as the uninterrupted run, filesystem and outcome |
| Execution.FaultStopsReplay | mutate.go:220-246 | the replay of a sound stream stops exactly at the injector's first fault |
| Execution.FaultsDecideReplay | faults.go:159-225 | a sound stream completes if and only if no index is a first fault, and otherwise stops at it |
| Execution.FaultsByOperation | faults.go:159-225 | said on operations alone: a clean stream is stopped at the least operation that is the nth some rule meets, by scope, kind name and path, and the lowest such rule is blamed; it completes when there is none |
| Execution.KindNames | operations.go:55-90 | each name a rule may give stands for exactly one kind of operation |
| Execution.RunLeaves | mutate.go:204-278 | over a whole run every operation leaves its effect |
| Execution.StreamAgrees | mutate.go:128-164 | when a generated stream with hard links agrees after every prefix: if and only if no operation leaves a second name of its inode behind |
| Execution.UnlinkedAgrees | mutate.go:128-164 | without hard links before or in the stream every prefix applies without error and agrees |
| Execution.DefaultKindsTracked | operations.go:151-162 | any choice of the default kinds is tracked over a baseline without symbolic links and makes no hard link |
| Execution.GeneratedStreamReplays | mutate.go:204-249 | the same through normalisation and replay: an undisturbed stream replays from its exported form without error |
| Execution.HardlinkThenAppendDiverges | mutate.go:803-821 | an instance: link then non-empty append is always accepted by both sides and always makes them differ |
| Baseline.ScanMutationState | mutate.go:325-384 | the scanned node map lists the walked paths with their types, sizes and attribute names |
| Baseline.ScanSimulates | mutate.go:325-384 | scanning a tree of directories, files and links, hard links included, gives a state that simulates it |
| Baseline.GenerateForTree | mutate.go:128-164 | scan, generate, replay: for every such tree and every draw, the stream is a good one over the allowed kinds and keeps to the options, normalisation fails only on unnamed attributes and planning only for the stated causes; over tracked kinds it agrees after every step exactly when nothing is left behind, and then replays without error |
| PlanSpec.WellFormedMeans | plan.go:122-189 | in a well-formed plan paths are distinct, the base comes first, parents are planned directories before their children, link sources are earlier regular entries |
| PlanSpec.OriginIsFile | plan.go:332-360 | following links to links always ends at one planned plain file |
| PlanSpec.RegisterKeepsGroups | plan.go:553-566 | registering a link keeps the groups equal to the classes of entries with one origin |
| PlanSpec.MaterializedDescribes | plan.go:568-589 | the sorted copies describe exactly those classes |
| PlanSpec.GroupsAreDisjointFiles | plan.go:553-589 | each reported group holds its origin, a plain file entry, and no path is in two groups |
| Planner.PlanState.PlanUniquePath | plan.go:493-527 | a path directly below the directory that was never handed out and is not reserved, or the collision error after 128 names in a row that were |
| Planner.PlanState.AppendEntry | plan.go:82-90 | appends exactly the entry, or refuses at the limit and changes nothing |
| Planner.PlanState.RegisterHardlink | plan.go:553-566 | aliased group objects and the index by path together change as the group list does: join the target's group or open one |
| Planner.PlanState.PlanSymlinkStrategy | plan.go:216-298 | each strategy plans the link it stands for; a dangling target is reserved; nothing planned only when there is nothing to point to |
| Planner.PlanState.PlanSymlinkCycle | plan.go:300-330 | exactly two links in one directory that lead to each other |
| Planner.PlanState.TryPlanHardlink | plan.go:332-360 | one link in the directory to an indexed regular path, which becomes the newest path |
| Planner.PlanState.TryPlanSpecialFile | plan.go:362-406 | one special entry in the directory; only devices carry numbers, and only when configured |
| Planner.PlanState.PlanFile | plan.go:408-465 | one file in the directory, followed at most by a relative link to it when no strategy is configured |
| Planner.PlanState.PlanFileSlot | plan.go:157-186 | each slot adds at least one entry, all directly in the directory and none a directory; its links lead to planned or reserved paths, and what it reserves is where one of its links leads; and which entry it is follows the draws: a link where one was drawn and has somewhere to lead, else a hard link, else a special file, else a file with the drawn mode, data, content and metadata |
| Planner.StrategyAccounts | plan.go:216-298 | the same for each link strategy |
| Planner.PlanState.PlanDir | plan.go:122-189 | terminates for every draw because the entry limit bounds the recursion; keeps the plan well-formed; on success the new entries follow the draws: the directory, as many directories as drawn, each planned the same way, and as many filled file slots as drawn, nothing below the drawn depth; accounts for every link; errors have their cause |
| Planner.PlanState.MaterializeHardlinkGroups | plan.go:568-589 | returns the sorted copies of the current group objects |
| Planner.PlanRun | plan.go:92-120 | for every draw each prefix of the plan is well-formed and within the limit and the groups are its link classes; on success the plan follows the draws, every link leads to a planned path or to a dangling target, every dangling target is where a link leads, and none is planned; the limit, collision, device and strategy errors have their cause |
| PlanApply.PlanRunner.CreateEntries | plan.go:630-648 | the forward loop refines the recursive forward pass and counts the entries |
| PlanApply.PlanRunner.FinalizeDirectories | plan.go:650-667 | the reverse loop refines the backward pass and counts what it finalised |
| PlanApply.PlanRunner.Run | plan.go:610-670 | prepare, create, finalise, as one specification of all run modes |
| PlanGrowth.MkdirAllGrows | plan.go:736-744 | making a directory only adds it and missing ancestors; what was there looks the same |
| PlanGrowth.ApplyEntryGrows | plan.go:689-789 | every step only adds the entry's path, and shows it as planned when the step created it |
| PlanRuns.ForwardResult | plan.go:630-648 | after the forward pass every planned path exists, created ones as planned, older ones untouched |
| PlanRuns.BackwardResult | plan.go:650-667 | each created directory is finalised once, after all its descendants, and keeps its planned metadata; everything else looks the same |
| PlanRuns.RunResult | plan.go:610-670 | both passes together, for every known mode |
| PlanRuns.CreatedAsPlanned | plan.go:610-789 | an entry that was not there before ends with the planned mode, owner, times, attributes and ACL, none where none is planned, and a file with its planned bytes, a link with its target, a device with its numbers; directories in spite of later children |
| PlanRuns.StrictMeansFresh | plan.go:689-789 | a successful strict apply means no planned path except the base existed before |
| PlanRuns.AppendAgainChangesNothing | plan.go:610-670 | after any successful apply, applying the plan again in append mode changes nothing and finalises no directory |
| PlanReplace.ClearedAlike | plan.go:610-628 | clearing the base makes filesystems that differ only below it alike up to inode numbers |
| PlanReplace.AlikeEntry | plan.go:689-789 | alike filesystems stay alike through every entry, with the same errors |
| PlanReplace.ReplaceForgetsBase | plan.go:610-670 | a replace result, error included, does not depend on what was in the base |
| PlanLinks.ForwardShares | plan.go:767-770 | after applying to an empty base two regular paths share an inode if and only if they have one origin in the plan |
| PlanLinks.AppliedShares | plan.go:610-670 | the same after both passes of any successful application |
| PlanLinks.ForwardSucceeds | plan.go:630-648 | an applicable plan goes through on a usable base |
| PlanLinks.PlanSucceeds | plan.go:610-670 | and so does the whole run, in every known mode |
| Hardlinks.CollectPaths | diff/collect.go:25-95 | the identity map lists each inode's regular paths in walk order |
| Hardlinks.BuildHardlinkGroups | diff/collect.go:110-131 | exactly the identities with at least two paths, sorted inside and by first path |
| Hardlinks.ReportHardlinkGroups | diff/collect.go:25-131 | the reported groups are the sets of regular paths that share an inode |
| Hardlinks.AppliedGroupsAreObserved | diff/collect.go:110-131 | after any successful application to an empty base the diff sees what the planner reported, links to links included |
| Hardlinks.PlannedGroupsAreObserved | diff/collect.go:110-131 | and applicable plans do apply |
| RandomFlow.GenerateAndObserve | plan.go:92-120 | plan, apply and observe as one procedure: for every draw and mode the plan is well-formed, follows the draws and has its classes as groups, the final filesystem and error are those of applying it, the report is the shared files left below the base, and on an empty base it is exactly the planned groups |
| ContentPatterns.WriteRandomContentAt | content_patterns.go:348-376 | the chunked loop shows the seeded stream on the range and leaves other bytes alone |
| ContentPatterns.WriteRepeatedContent | content_patterns.go:378-408 | byte p is block[(p mod 65536) mod len(block)], the size exact, an empty block refused unless the size is zero |
| ContentPatterns.WriteExtents | content_patterns.go:310-330 | each byte comes from the last extent that covers it, else from the base or zero |
| ContentPatterns.WritePlannedFileContent | content_patterns.go:295-346 | file bytes equal the per-byte specification and the bytes written equal the prediction, for blocks of any length |
| ContentPatterns.PeriodicityCondition | content_patterns.go:378-408 | repeated content of any block length, longer than a chunk too, is globally periodic for all blocks if and only if the file fits one chunk or the length divides 65536 |
| ContentPatterns.RandomizedSegmentLength | content_patterns.go:259-270 | a positive length that fits file and cap |
| ContentPatterns.RandomizedOffset | content_patterns.go:272-293 | an offset where the segment fits, an error exactly when none does |
| ContentPatterns.ResolveRepeatedBlock | content_patterns.go:223-257 | a non-empty prefix of the generated block of at most one chunk, an error exactly when none is there |
| ContentPatterns.PlanFileContentPattern | content_patterns.go:125-221 | planned contents are valid, predict their written bytes, and are sparse exactly for sparse patterns of more than one byte, with the extents of their pattern, updates in order of their place |
| CoverageContent.PlainData | coverage_content.go:135-148 | the leading bytes of the cell's stream, as many as the size |
| CoverageContent.RepeatedBlock | coverage_content.go:294-311 | a block of one chunk at most, as long as the file when that fits, from the cell's stream |
| CoverageContent.SparseSegmentLength | coverage_content.go:236-256 | positive and inside the file, the whole file only for size one |
| CoverageContent.PartialSegmentLength | coverage_content.go:258-278 | positive and inside the file |
| CoverageContent.DeterministicOffset | coverage_content.go:280-292 | a segment that fits stays inside the file |
| CoverageContent.SparseLengthReached | coverage_content.go:236-256 | every length that leaves a hole is chosen for some hash |
| CoverageContent.PartialLengthReached | coverage_content.go:258-278 | every length up to the cap is chosen for some hash |
| CoverageContent.OffsetReached | coverage_content.go:280-292 | every place a segment fits is chosen for some hash |
| CoverageContent.ContentFor | coverage_content.go:156-234 | every class, size and hash gives a valid content of that pattern and size that is sparse exactly when it should be, with the seed, extents and block of its class |
| Pairwise.InitialPairs | coverage_enumerator.go:325-335 | all value pairs, once, in lexicographic order; their number is the sum of the pair products |
| Pairwise.GainIsNewCover | coverage_enumerator.go:348-370 | a value gains a pair exactly when choosing it covers a pair that is not covered yet |
| Pairwise.BestValue | coverage_enumerator.go:352-369 | the least value with most uncovered pairs gained |
| Pairwise.NextCase | coverage_enumerator.go:339-370 | the first uncovered pair, then the greedy value in every other dimension |
| Pairwise.Compact | coverage_enumerator.go:372-379 | in place, keeps exactly the uncovered pairs in order |
| Pairwise.RemainingMeans | coverage_enumerator.go:372-379 | what is kept is what the case does not cover, still ascending |
| Pairwise.CoverPairs | coverage_enumerator.go:325-385 | terminates since pairs strictly shrink; cases in range and distinct, all pairs covered, at most the sum of pair products, in order for two dimensions |
| Pairwise.CoveragePairwise | coverage_enumerator.go:307-385 | the same with the degenerate lists; the Cartesian product for two dimensions |
| Pairwise.GreedyArrayUnique | coverage_enumerator.go:337-385 | the greedy rule determines the array, so it is the same in every run |
| Pairwise.AtLeastLargestProduct | coverage_enumerator.go:307-385 | any covering array has at least as many cases as any pair product |
| Pairwise.SearchIsCovering | coverage_enumerator.go:307-385 | the finished search covers every pair of values and meets that bound |
| CoverageNaming.SuffixShowsLow32 | coverage_naming.go:115-124 | equal suffixes mean equal low 32 bits of the cell id |
| CoverageNaming.MasksSeparate | coverage_naming.go:115-124 | masks with different low 32 bits give one cell different suffixes |
| CoverageNaming.NamesDiffer | coverage_naming.go:92-110 | names of cells with different suffixes differ, whatever their bodies |
| CoverageNaming.NameBody | coverage_naming.go:126-253 | a body of the requested length without NUL and slash, its edge in the class's special bytes and the rest from the stream |
| CoverageNaming.DeterministicName | coverage_naming.go:92-110 | a valid name of at most 255 bytes that ends in its cell's suffix after an underscore; near-max names have exactly 255 bytes, the others the length asked for with room for the suffix |
| CoveragePlan.RootNames | coverage_enumerator.go:544-578 | each root name stands for exactly one sub-tree |
| CoveragePlan.RootNamesDiffer | coverage_enumerator.go:552-565 | the eight sub-tree roots have different names |
| CoveragePlan.CellNamesDiffer | coverage_enumerator.go:580-585 | wrapper names of one sub-tree are injective in the index, beyond five digits too |
| CoveragePlan.SpecialNamesDiffer | coverage_enumerator.go:1003-1012 | special names are injective in the index, whatever the type |
| CoverageBuilder.AppendSound | coverage_enumerator.go:427-466 | appending a fresh allowed entry keeps the builder's plan sound |
| CoverageBuilder.Builder.RegisterPath | coverage_enumerator.go:419-425 | fails exactly on a used path |
| CoverageBuilder.Builder.AppendDir | coverage_enumerator.go:427-438 | never collides on an unclaimed child; the entry is stamped |
| CoverageBuilder.Builder.AppendFile | coverage_enumerator.go:440-450 | never collides on an unclaimed child; the entry is stamped |
| CoverageBuilder.Builder.AppendSymlink | coverage_enumerator.go:468-479 | never collides on an unclaimed child; the link keeps its target |
| CoverageBuilder.Builder.AppendMirror | coverage_enumerator.go:496-506 | the link joins the group of its origin |
| CoverageBuilder.Builder.AppendSpecial | coverage_enumerator.go:508-516 | devices are 1, 3, others carry no numbers |
| CoverageBuilder.Builder.BuildRunPlan | coverage_enumerator.go:527-540 | the entries as they are and the sorted groups |
| CoverageCells.CaseStays | coverage_enumerator.go:544-578 | what a cell shows is never lost while the plan grows |
| CoverageCells.AllCasesShowPairs | coverage_enumerator.go:307-385 | a sub-tree that realises every case of a finished search realises every pair of class values |
| CoverageClasses.StrategyTable | coverage_enumerator.go:137-144 | every known link strategy stands at exactly one index of its dimension |
| CoverageClasses.NameTable | coverage_naming.go:50-60 | every name class stands at exactly one index |
| CoverageClasses.ContentTable | coverage_content.go:37-43 | every content class stands at exactly one index |
| CoverageClasses.SizeTable | coverage_content.go:86-94 | every size class stands at exactly one index |
| CoverageClasses.SizesAroundChunk | coverage_content.go:96-116 | the sizes grow from class to class, one byte around a chunk, and past two chunks |
| CoverageClasses.FileModeTable | coverage_enumerator.go:64-81 | plain, executable and each combination of special bits stand at exactly one index each |
| CoverageClasses.DirModeTable | coverage_enumerator.go:83-100 | directories reach the same modes, the first two classes sharing one |
| CoverageClasses.MetadataTable | coverage_enumerator.go:1302-1317 | the metadata dimension holds exactly the enabled classes, each once |
| CoverageClasses.FlavourTable | coverage_enumerator.go:1216-1244 | base, named and default lists are three different variants, the default one on a directory |
| CoverageClasses.TimesTable | coverage_enumerator.go:244-259 | zero, past, future and both orders of access and modification are five different variants |
| CoverageClasses.ClassMetadata | coverage_enumerator.go:587-650 | an owner exactly for the classes with ownership, attributes and ACL exactly for the full class, times whenever they can be set |
| CoverageClasses.OwnersRotate | coverage_enumerator.go:261-269 | with privileges, owners rotate through the three accounts of the table |
| CoverageClasses.PairsCover | coverage_enumerator.go:671-1300 | from pairs of indices to the plan: an entry of the shape, payload and metadata each pair of directory or file classes asks for, a link of every strategy with every name class, a group of every size, a special file of every enabled type in both modes, and every attribute, ACL and timestamp variant |
| CoverageEnumerator.OpenCell | coverage_enumerator.go:580-585 | a wrapper that nothing else claims, empty, and the index advanced |
| CoverageEnumerator.EmitLeafCell | coverage_enumerator.go:671-711 | one wrapper with one leaf named for its cell, holding exactly the given mode, data and metadata |
| CoverageEnumerator.EmitSymlinkCell | coverage_enumerator.go:853-904 | each strategy shows the link it stands for, and nothing collides |
| CoverageEnumerator.EmitDangling | coverage_enumerator.go:875-877 | the link points to a sibling that is promised never to be planned |
| CoverageEnumerator.EmitCycle | coverage_enumerator.go:889-899 | two different names that link to each other |
| CoverageEnumerator.EmitHardlinkCell | coverage_enumerator.go:908-960 | a file and its mirrors under different names, as many as the size, registered as one group |
| CoverageEnumerator.Separated | coverage_naming.go:115-124 | a cell and its xor with a mask of non-zero low half never share a name |
| CoverageEnumerator.MaskedAreDistinct | coverage_enumerator.go:945-953 | origin and mirrors of one cell have pairwise different names |
| CoverageSubTrees.EnumerateDirs | coverage_enumerator.go:671-711 | every pair of mode, name and metadata class is realised in every repetition, without collision |
| CoverageSubTrees.EnumerateFiles | coverage_enumerator.go:715-787 | every pair of the five file dimensions is realised in every repetition, with the content its classes ask for |
| CoverageSubTrees.EnumerateSymlinks | coverage_enumerator.go:801-851 | every pair of strategy and name index is realised around planned anchors, without collision |
| CoverageSubTrees.EnumerateHardlinks | coverage_enumerator.go:908-960 | every group size with every name class |
| CoverageSubTrees.EnumerateSpecials | coverage_enumerator.go:971-1029 | every enabled type with both modes, under distinct numbered names |
| CoverageSubTrees.EnumerateVariants | coverage_enumerator.go:1050-1297 | every attribute, ACL or timestamp variant with every name class |
| CoverageSubTrees.EnumerateCoveragePlan | coverage_enumerator.go:544-578 | the collision error is unreachable for every capability set, multiplier and hash; the plan is well-formed, uses enabled capabilities only, never plans a dangling target, reports its link classes, and in every repetition holds the entries that every pair of classes of every enabled sub-tree asks for |
| CoverageACLs.CoverageListsResolve | coverage_enumerator.go:1216-1241 | every ACL list a coverage plan carries parses and resolves, and only the directory variant has default entries |
| CoverageApply.CoveragePlanApplies | plan.go:610-670 | such a plan applies to every usable base of a system that accepts resolvable lists, default entries on directories only, and its reported groups are what the diff observes |
| Acl.ValidPermutation | internal/aclxattr/aclxattr.go:292-346 | validity does not depend on order |
| Acl.SortValid | internal/aclxattr/aclxattr.go:268-289 | sorting is a permutation into canonical order and keeps validity |
| Acl.Validate | internal/aclxattr/aclxattr.go:292-346 | the counting loop accepts exactly the valid lists: one owner, group and other entry, no duplicate, at most one mask, a mask when something is named |
| AclCodec.Marshal | internal/aclxattr/aclxattr.go:55-77 | the buffer loop refines the encoding; it fails exactly on invalid lists |
| AclCodec.Parse | internal/aclxattr/aclxattr.go:80-116 | the offset loop refines the decoding with its framing and validity errors |
| AclCodec.RecordFormat | internal/aclxattr/aclxattr.go:55-78 | a record is tag, permissions and id, two, two and four bytes, in either byte order |
| AclCodec.PayloadFormat | internal/aclxattr/aclxattr.go:55-78 | a payload starts with version 2 and holds record after record, under the tag numbers of the kernel |
| AclCodec.ParseMarshal | internal/aclxattr/aclxattr.go:55-116 | parsing what was marshalled gives the sorted list, in either byte order; marshalling succeeds exactly for valid lists |
| AclCodec.MarshalPermutation | internal/aclxattr/aclxattr.go:55-77 | the payload does not depend on the order of entries |
| AclCodec.MarshalParse | internal/aclxattr/aclxattr.go:80-116 | marshalling a parsed list parses to it again, and gives the same bytes if and only if the payload was canonical |
| AclCodec.BareHeader | internal/aclxattr/aclxattr.go:55-116 | the payload that is only a header parses to the empty list, which marshals to no bytes |
| AclText.PermRoundTrip | internal/aclxattr/aclxattr.go:375-426 | permission texts parse back, for every permission |
| AclText.IDRoundTrip | internal/aclxattr/aclxattr.go:366-373 | decimal ids parse back over all 32 bits |
| AclText.EntryRoundTrip | internal/aclxattr/aclxattr.go:161-250 | a printed entry parses to itself with its default flag |
| AclLists.EntriesFromMap | internal/aclxattr/aclxattr.go:353-364 | a sorted listing of the map whatever the iteration order |
| AclLists.ListingUnique | internal/aclxattr/aclxattr.go:353-364 | there is only one such listing |
| AclLists.ParseTextEntries | internal/aclxattr/aclxattr.go:119-158 | success gives valid listings of what was collected, later duplicates winning; failure means a bad text or an invalid collection |
| AclLists.FormatTextEntries | internal/aclxattr/aclxattr.go:253-265 | access entries in canonical order, then default entries |
| AclLists.TextRoundTrip | internal/aclxattr/aclxattr.go:119-265 | parsing the printed form of two valid lists gives both, sorted |
| AclResolve.DeriveMask | metadata_linux.go:317-327 | the or-loop yields the least permission set that contains every group-class entry |
| AclResolve.OrIsLeast | metadata_linux.go:317-327 | bitwise or is the least upper bound of permission sets |
| AclResolve.LeastMaskUnique | metadata_linux.go:317-327 | the least mask is unique |
| AclResolve.Canonicalize | metadata_linux.go:279-295 | a missing mask is added exactly when something is named, and the list is sorted |
| AclResolve.MaskedIsValid | metadata_linux.go:279-295 | with base entries present the result is valid exactly when no entry has the undefined id |
| AclLists.CollectMeans | internal/aclxattr/aclxattr.go:119-159 | collecting means: an entry is held if and only if the last text about its key says it, or no text is about its key and the base holds it |
| AclResolve.CollectMaps | metadata_linux.go:179-219 | both maps hold the last entry for each key over the base entries of the mode; a default map exists exactly when a default entry does |
| AclResolve.ResolvedMeans | metadata_linux.go:179-337 | a resolved list holds exactly: what the last text about each key says, the three digits of the mode for owner, group and others where no text speaks, and, when there are named entries and no mask was given, the least mask over its group class |
| AclResolve.ResolveACLEntries | metadata_linux.go:179-219 | succeeds if and only if every entry parses and no named one has id 2^32-1; access and default results are always valid and hold exactly that |
| NormalLists.SettingsMeans | manifest.go:323-341 | the normal form holds the given settings, no more and no fewer, names trimmed, values as they were, sorted by name |
| NormalLists.SettingsIdempotent | manifest.go:323-341 | normalised settings are a fixpoint |
| NormalLists.SettingsPermutation | manifest.go:323-341 | their order does not matter, errors included |
| NormalLists.NormalizeSettings | manifest.go:323-341 | the loop refines the normal form |
| NormalLists.XAttrsIdempotent | manifest.go:769-839 | normalised attributes are a fixpoint |
| NormalLists.XAttrsPermutation | manifest.go:769-839 | their order does not matter, errors included |
| NormalLists.CapabilitiesIdempotent | manifest.go:498-528 | normalised capabilities are a fixpoint |
| NormalLists.CapabilitiesPermutation | manifest.go:498-528 | their order does not matter, errors included |
| NormalLists.DeduplicateInPlace | metadata.go:203-212 | the in-place loop removes adjacent duplicates |
| NormalLists.NormalizeACLEntries | metadata.go:180-213 | trim, sort and deduplicate in place refine the normal form |
| NormalLists.NormalACLMeans | metadata.go:180-213 | sorted, distinct, and exactly the trimmed texts |
| NormalLists.ACLIdempotent | metadata.go:180-213 | normalised texts are a fixpoint |
| NormalLists.ACLSameTexts | metadata.go:180-213 | only the set of texts matters |
| ManifestEntries.CheckContent | manifest.go:696-767 | accepts exactly the contents that meet their pattern's rules |
| ManifestEntries.MetadataIdempotent | manifest.go:769-839 | normalised metadata is a fixpoint |
| ManifestEntries.MetadataOrderless | manifest.go:769-839 | the order of attributes and ACL texts does not matter |
| ManifestEntries.NormalizeEntry | manifest.go:530-694 | the checks by type refine the normal form |
| ManifestEntries.EntryIdempotent | manifest.go:530-694 | normalised entries are a fixpoint |
| ManifestEntries.EntryOrderless | manifest.go:530-694 | an entry's normal form does not depend on the order inside its metadata |
| Manifest.CheckPaths | manifest.go:363-394 | the loop accepts exactly when each entry's path is new and its parent is an earlier directory, and yields the path map |
| Manifest.CheckLinks | manifest.go:396-422 | accepts exactly when every link source is a regular path and every absolute target a path of the manifest |
| Manifest.DeriveCapabilities | manifest.go:946-996 | sorted, distinct, and a capability is in it exactly when some entry or operation asks for it by type, owner, times, attributes, ACL or kind |
| Manifest.NormalizeManifest | manifest.go:310-474 | the loops refine the normal form |
| Manifest.NormalHeader | manifest.go:310-341 | a normal form has version 1, a known run mode and a positive entry limit, as given |
| Manifest.NormalIdempotent | manifest.go:310-474 | normalising a normal form changes nothing |
| Manifest.NormalOrderless | manifest.go:310-474 | order of settings, capabilities, attributes and ACL texts does not matter, errors included |
| Manifest.NormalNeedsNoMore | manifest.go:946-996 | normalising entries never adds a needed capability |
| Manifest.SealVerifies | manifest.go:841-902 | what is sealed verifies, for every digest that yields hexadecimal text |
| Manifest.ChecksumCovers | manifest.go:891-902 | two manifests have one checksum under every digest if and only if they differ at most in their integrity records |
| Manifest.TamperingShows | manifest.go:855-902 | two accepted manifests with one checksum are the same manifest, or a collision of the digest: any other change to a sealed manifest is rejected |
| Manifest.VerifiedIsSealed | manifest.go:855-889 | a normal manifest verifies if and only if it is its own sealed form |
| Manifest.SealedIsNormal | manifest.go:841-853 | sealing keeps the normal form |
| Manifest.Export | manifest_json.go:11-28 | exports exactly the manifests with a normal form, as the encoding of that form with the digest of all of it but the integrity record |
| Manifest.ParseManifest | manifest_json.go:31-51 | accepts exactly what decodes, normalises and verifies, and what it accepts carries the digest of all of itself but its integrity record |
| Manifest.ExportThenParse | manifest_json.go:11-51 | export then parse gives the sealed normal form for every normalisable manifest, when the decoder inverts the encoder |
| ManifestPaths.RelCases | manifest.go:1356-1377 | the relative path escapes exactly when the path is outside the base, is `.` exactly at the base, and below it is the remaining path |
| ManifestPaths.ToManifest | manifest.go:1356-1377 | translates exactly the paths at or below the base, by cutting it off |
| ManifestPaths.ToFilesystem | mutate.go:1255-1286 | a canonical manifest path goes below the base |
| ManifestPaths.TranslationsInverse | manifest.go:1356-1377 | the two translations are mutual inverses |
| ManifestPaths.NeverLeavesBase | mutate.go:1255-1286 | whatever the text, dots and NUL included, a translated operation path is at or below the base |
| ManifestPaths.TranslateCases | manifest.go:1379-1408 | any link target that is not blank is translated exactly when absolute and inside the base, and refused there exactly when what it cleans to has a NUL |
| ManifestPlan.CanonicalIsNormal | metadata.go:180-213 | an ACL list is its own normal form if and only if it is sorted, distinct, trimmed and free of NUL and comma |
| ManifestPlan.MetadataRoundTrip | manifest.go:1064-1278 | metadata converts back the same if and only if attribute maps are non-empty and ACL lists are non-empty and canonical |
| ManifestPlan.ContentRoundTrip | manifest.go:1113-1320 | pattern, size, seeds, blocks and extents come back; only the run-time predictions do not |
| ManifestPlan.TargetRoundTrip | manifest.go:1032-1039 | a link target comes back the same if and only if it is relative, outside the base, or already clean |
| ManifestReplay.EntryRoundTrip | manifest.go:998-1234 | through conversion, normalisation and conversion back an entry is the same, predictions apart, if and only if: only the base directory has mode 0, links and special files have no metadata, a file has data or a content but not both, only devices have numbers, a hard link has another source, and metadata and target are kept |
| ManifestReplans.PlanRoundTrip | manifest.go:177-298 | a well-formed plan that converts comes back from its manifest if and only if every entry does and every absolute link into the base leads to a planned path |
| ManifestShapes.ShapesAgree | manifest.go:363-408 | a plan is well-formed exactly when its manifest starts with the root, places every path, and each link comes after its source |
| ManifestShapes.StructureOfPlan | manifest.go:363-422 | the manifest of a well-formed plan passes the structure check if and only if every absolute link into the base leads to a planned path |
| ManifestPlan.DanglingNeverBuilds | manifest.go:410-422 | so a plan with a dangling link into its base never becomes a manifest |
| ManifestBuild.Converted | manifest.go:998-1062 | a planned entry converts if and only if it and its source lie at or below the base, its owner, attribute names and ACL texts are acceptable, its content is valid, and its target is not blank and, when absolute and inside, cleans to a path without NUL |
| ManifestBuild.AcceptedNormalizes | manifest.go:530-645 | a converted entry normalises if and only if only the base has mode 0, a literal target has no NUL, data and content exclude each other, links stay off the base and special files say nothing about metadata |
| ManifestBuild.BuildScenarioManifest | manifest.go:177-239 | a well-formed plan makes a manifest if and only if the operations normalise, every entry converts and is acceptable, and absolute links into the base lead to planned paths; the manifest is normal, verifies and holds the normalised entries and operations |
| ManifestReplans.NormalManifestPlans | manifest.go:1147-1160 | every normal manifest gives a plan, well-formed if and only if each hard link stands after its source |
| ManifestApply.ManifestPlanApplies | manifest.go:248-298 | an applicable one applies to an empty base if and only if each hard link stands after its source |
| ManifestReplans.LinkBeforeSource | manifest.go:396-408 | an accepted manifest whose plan is not well-formed |
## Left out

- Real system calls: permissions, umask, special mode bits, attribute and ACL behaviour of a kernel. Whether a kernel accepts an ACL list is a parameter of plan application, and coverage plans only need it to accept what resolves; the existing parents of a path are inspected, but not raced with.
- chmod and attribute calls on a symbolic link: chmod follows the link and the model refuses the rest, so the simulation is about streams where they meet none.
- Special files in a scanned baseline: the virtual tree has no kind for them, so scans of trees with special files are not claimed to simulate.
- Symbolic links on the way to the base path: bases are rooted and free of link components.
- Fault points inside plan application: faults are modelled for mutation streams only.
- JSON and YAML libraries: the encoder and decoder are arbitrary inverse functions. SHA-256 is a function that yields 64 hexadecimal digits; FNV and the cell hash are arbitrary functions; generators of random numbers are arbitrary draws.
- path.Match: globs are a function that matches, does not match, or reports a bad pattern.
- Text encoding: strings are sequences of characters. White space is Unicode's; lower-casing is modelled on ASCII, where roles, checksums and algorithm names live; in coverage names a character stands for one byte.
- 64-bit overflow in the sums of extents: integers are unbounded there. Cell ids and their masks are 64 bits wide.
- Values of known sum types replace integer type codes, so errors for unknown codes are modelled only where a caller can supply them (operation kinds, symlink strategies, special types, run modes).
- Texts of errors, timing metrics, display tables and escaping for display.
- Weighted choosers, option setters, the scenario catalogue, capability probing and the platform check of required capabilities: the set of enabled capabilities is an arbitrary input.
- Mount, cross-device and filesystem-feature scenarios.
- Coverage plans through the manifest: their special entries carry timestamps that the manifest rejects.
- The length of coverage wrapper names: leaf names are proved to fit 255 bytes, wrapper names grow with the decimal index.
- Attribute values of coverage cells: an arbitrary function of sub-tree, variant and cell.
- The partial file a failed content write leaves behind: refused contents leave an empty file in the model.
- The checks for symbolic link parents when a manifest is applied.
- Planner.PlanRun: a failure of a configured generator and an unknown special type are draws, so no cause is stated for them.
- Attribute names in a scanned baseline that have no namespace: generation can fail on them, and Linux reports none.
