# Verified models of the repository's tooling algorithms

This project models the algorithms behind the repository's release and maintenance scripts in Dafny and proves what
those scripts rely on. `dafny verify dfyconfig.toml` checks everything.

**Concurrent publishing** (`scripts/ci-release-publish.ts`). `PublishModel` is the publish runner as a transition
system: one step is what one asynchronous task does between two `await`s, and any task that can move may move next. The
state is what the closures of the source hold: the semaphore's counter and queue, the pack mutex's tails, and where each
task is suspended. `PublishInvariants` proves what every step keeps, `PublishTheorems` lifts it to whole runs: at most
`limit` sections, FIFO hand-over, exclusive pack locks, no publish before its prerequisites, no deadlock, a bound on
the number of steps, and one result for all schedules and all limits; `PublishHistory` proves that no job skips a stage.
`PublishRun` is the same runner with mutable objects, proved to take exactly the steps of the model; `CycleCheck` is the
depth-first cycle check in front of it, against the graph theory of `DependencyGraph`.

**Inlining** (`scripts/inline-functions.ts`). `InlineExpr` gives effectful, short-circuiting evaluation over an abstract
host (ECMA-262, sections 13.13, 13.11 and 13.10). `GuardInversion` proves that turning leading guards into one positive
condition decides, throws and acts as the guards do; `GuardParser` parses the generated tokens back to the intended
tree. The law is false for relational operators on operands without an order (NaN, undefined), since `<` is flipped to
`>=` without looking at them: `FlipExactness` gives the runs on which it fails and the exact static condition under which it
holds on all of them. `BodyScope` runs statements with locals, blocks and loops in lexical scope, and substitutes names in them as
the text edits do; what an operation mentions comes with the names that scopes inside it bind around the mention (callbacks,
loop headers, catch clauses). `StrictInline` plans the replacement of a call, with names chosen by `FreshNames`. The replacement
equals the call only where no chosen name captures another one or is declared twice: `StrictMeaning` proves that it does then,
`CaptureRuns` and `CaptureExactness` that some run differs otherwise, `CaptureConditions` states when that is in terms of the
helper, the arguments and the block, and `CapturedInputs` has inputs on which it happens. `CallSites` puts all call sites of a
block together. `TextEdits` proves that splicing edits from right to left is simultaneous substitution.

**Changelogs** (`scripts/fix-changelogs.ts`). `LineSplit`, `ChangelogDocument`, `ChangelogRender` and `ChangelogRoundTrip`
cover parser and printer; `ChangelogCollapse` the size limit; `ChangelogItems`, `ChangelogKeys`, `ChangelogNormalize`,
`ChangelogLayout`, `ChangelogMoves`, `ChangelogPromote`, `ChangelogFix`, `ChangelogConservation`, `ChangelogFixedFile`,
`ChangelogOnce`, `ChangelogText` and `ChangelogIdempotent` the fixer, up to the statements that it loses no line of text,
duplicates no promoted entry and leaves a fixed file as it is; `ChangelogLines` says what happens to a bullet in terms of the
lines of the file, and `ChangelogBlocks` how a printed file is laid out. `DiffPairing` and `DiffLines` pair added with removed
bullets and find the new entries of a diff. A line is a value of a datatype that says what the parser's
regular expressions see in it. `StableSort` and `VersionOrder` stand for `Array.prototype.sort` and the version comparison.

**Clones and public surface** (`scripts/cleanup-scan.ts`). `UnionFind` is the disjoint-set structure with path compression on
its map; `CloneWindows` and `CloneRegions` prove the detector's clusters to be connected components and their regions to
cover exactly the lines of their windows, up to the statement that copies are reported and only copies are. `PublicSurface` is the re-export worklist.

**Version stamp** (`scripts/stamp-native-version.ts`). `VersionStamp` writes the version into the slot in place;
`AdhocSignature` refreshes the page hashes in place; `SignatureLayout` says which bytes it reads; `SignatureKept` and
`StampedImage` prove that a well-formed image keeps a valid signature and that nothing else in it changes.

**Session statistics** (`scripts/session-stats`). `Intervals`, `ReadReplay` and `ReplayBill` model the read replay,
`SelectorReads` the coverage of follow-up reads, `TopResults`, `SessionScan` and `SessionLog` the bounded buffer and the
residency accounting.

## Conventions

- Loops, in-place updates and objects of the source are methods, arrays and classes; each is proved against a
  specification, and the laws are lemmas about that specification.
- Regular expressions, digests, window hashes, byte lengths and JavaScript's own evaluation of operands are parameters
  about which nothing is assumed except what a precondition says.
- Exceptions are `Err` results. Where the code and its documentation disagree, the model follows the code.

## Results that need a condition

- Guard inversion holds on all hosts exactly for guard lists without an unsafe flip (`FlipExactness.InversionExact`); the
  header of the inliner does not mention it.
- Apart from flips, strict-mode inlining equals the call exactly when the following holds (`CaptureExactness.StrictInlineExact`;
  on the input, `CaptureConditions.InlinableExactly`). For every name `x` of the helper and the temporary or renamed local `n`
  that it becomes: the body does not take `n` from outside, the block may declare `n` (the function or catch clause around it
  does not bind it), and `x` is nowhere mentioned where `n` is declared anew, be it by a block or by a scope inside an operation.
  Guards mention no local of the tail, and what the body takes from outside is not declared around the call. The pass checks
  none of the first three: new names avoid the identifiers in the caller's block only. It fails, in `CapturedInputs`, for a helper
  that mentions a module's own `__inl_p` (`OuterTempIsCaptured`), for helpers that had a call inlined into them under a guard,
  in a loop or in a callback (`ChainedGuardedIsCaptured`, `ChainedInLoopIsCaptured`, `ChainedInCallbackIsCaptured`), for a
  helper whose local is renamed to an outer name it mentions (`NumberedLocalIsCaptured`), for a local that is a parameter of the
  caller (`ParameterIsRedeclared`), and, although the pass has a check for it, for an outer name that the helper also binds
  elsewhere (`BoundElsewhereIsCaptured`).
- A version that contains the magic itself makes the stamped image impossible to stamp again
  (`VersionStamp.StampedSlot`); all other versions do not.
- The line number of an added bullet is right exactly when no earlier added line of its hunk starts with `++ b/`
  (`DiffPairing.LineNumberTrue`, with the failing diff in `DiffPairing.PathLookalike`).
- Splitting the archive footer undoes appending it exactly for bodies that do not end in a blank line, and the empty
  file (`ChangelogRoundTrip.FooterRoundTrip`); every printed body is one (`ChangelogRoundTrip.FooterOfPrinted`).
- The number of lines said to be covered is the number of lines read exactly when no range such as `:10-5` starts away from
  the lines read (`SelectorReads.CoverageAccounts`, with a failing group in `SelectorReads.ReversedRangeMiscounts`); by how
  much it and the numbers computed from it are off otherwise is part of `SelectorReads.AnalyzeGroup`.
- `chunk_range` ends exactly when there is nothing to do or the line cap is at least one (`Intervals.ChunkingEnds`), which is
  therefore a precondition of the replay.
- The slot of a stamped and signed image is found again exactly when the version does not contain the magic and no refreshed
  digest completes an occurrence of it (`StampedImage.SlotFoundAgain`).
- Fixing a fixed changelog again changes nothing if no section repeats a heading that has text under it
  (`ChangelogIdempotent.FixTwice`); with a repeated heading it can change the
  spacing between entries (`ChangelogIdempotent.RepeatedHeadingChanges`).

## Model

| member | source | states |
|---|---|---|
| PublishRun.Semaphore.Enter | scripts/ci-release-publish.ts:512-521 | a section runs at once exactly when fewer than `limit` are active; otherwise it queues last |
| PublishRun.Semaphore.Leave | scripts/ci-release-publish.ts:522-531 | a leaving section hands its slot to the head of the queue without freeing it, and frees it only when nobody waits |
| PublishRun.KeyedMutex.Knock | scripts/ci-release-publish.ts:388-395 | asking for a key makes the caller the key's tail and yields the tail it must await |
| PublishRun.KeyedMutex.Release | scripts/ci-release-publish.ts:396-401 | releasing resolves the holder's promise and touches no tail |
| PublishRun.Runner.AdvancePacking | scripts/ci-release-publish.ts:419-456 | up to the end of the pack lock, the mutable runner takes the model's step |
| PublishRun.Runner.AdvancePublishing | scripts/ci-release-publish.ts:565-588 | from there to the end of the publish section, the mutable runner takes the model's step |
| PublishRun.Runner.Settle | scripts/ci-release-publish.ts:581-587 | settling records the failure, writes one block and resolves the job's promise |
| PublishRun.Runner.Advance | scripts/ci-release-publish.ts:565-588 | every stretch of a task is one step of the transition system, and keeps its invariants |
| PublishRun.Runner.FailedNames | scripts/ci-release-publish.ts:590-591 | the names of failed jobs come in input order |
| PublishRun.BuildByName | scripts/ci-release-publish.ts:534-534 | the map by name holds the last job of each name |
| PublishRun.Drive | scripts/ci-release-publish.ts:561-589 | with acyclic dependencies any choice of the next task ends with every job settled |
| PublishRun.RunPublishJobs | scripts/ci-release-publish.ts:556-591 | an error exactly on a cycle; otherwise the end of a run of the transition system with limit max(1, concurrency): exactly the jobs that fail or depend on a failing one, in input order, one block each |
| PublishInvariants.SlotInvStep | scripts/ci-release-publish.ts:512-531 | each step keeps: slots held equal `active`, at most `limit`, queue only when full, hand-over in order of arrival |
| PublishInvariants.LockInvStep | scripts/ci-release-publish.ts:388-402 | each step keeps: exactly the tasks that have a lock to take and are past packing have asked for it, and the chain of tails, where a task awaits exactly the previous one with its key |
| PublishInvariants.OutcomeInvStep | scripts/ci-release-publish.ts:565-588 | each step keeps: a job that publishes has its prerequisites published, and a settled job failed exactly if it is doomed |
| PublishInvariants.WrittenInvStep | scripts/ci-release-publish.ts:586-587 | each step keeps: exactly the settled jobs have written a block, once |
| PublishInvariants.InvRun | scripts/ci-release-publish.ts:556-591 | all invariants hold in every state a schedule can reach |
| PublishInvariants.DoomedUnfolds | scripts/ci-release-publish.ts:571-579 | a job is doomed exactly if it fails itself or a direct prerequisite is doomed |
| PublishTheorems.SlotSafety | scripts/ci-release-publish.ts:512-531 | in every reachable state at most `limit` sections run, waiters mean all slots are taken, and waiting for prerequisites holds no slot |
| PublishTheorems.NoBarging | scripts/ci-release-publish.ts:512-531 | nobody gets a slot on arrival while others queue |
| PublishTheorems.PackLockSafety | scripts/ci-release-publish.ts:388-402 | tasks with one pack key enter its section one at a time, in the order in which they asked |
| PublishTheorems.PackLockExclusion | scripts/ci-release-publish.ts:388-402 | no two jobs pack under the same key at once |
| PublishHistory.StepLeads | scripts/ci-release-publish.ts:561-589 | every step of a task is one of a job's life: no stage is skipped, and a job without lock, or blocked, takes no other way |
| PublishHistory.Stages | scripts/ci-release-publish.ts:565-588 | in every reachable state, what a job has been through is exactly what the phase it is in requires |
| PublishHistory.PackLockIsTaken | scripts/ci-release-publish.ts:388-401 | past packing, a job with a pack key that did not fail before has asked for its lock and released it, and held it at some point of the run |
| PublishHistory.CompleteRunVisits | scripts/ci-release-publish.ts:561-589 | in a complete run every job packed, held its lock, waited, and then published or was discarded, each exactly if it had to |
| PublishHistory.WhoPublishes | scripts/ci-release-publish.ts:565-588 | in a complete run a job publishes exactly if its pack phase succeeded and no prerequisite is doomed; doomed are jobs whose pack phase or publication fails, and those with a doomed prerequisite |
| PublishTheorems.PublishSafety | scripts/ci-release-publish.ts:571-580 | a job publishes only after packing and after all its known prerequisites published; a blocked job never does |
| PublishTheorems.PrereqIsEdge | scripts/ci-release-publish.ts:571-573 | a job waits exactly for the known dependencies that the cycle check follows, other than itself |
| PublishTheorems.StepDecreases | scripts/ci-release-publish.ts:561-589 | every step moves its task strictly forward and no task backward |
| PublishTheorems.RunsAreShort | scripts/ci-release-publish.ts:561-589 | n jobs take at most 12 n steps under any schedule |
| PublishTheorems.Progress | scripts/ci-release-publish.ts:561-589 | in every reachable state with an unsettled job some task can move |
| PublishTheorems.CompleteRunReturns | scripts/ci-release-publish.ts:546-591 | every complete run fails exactly the jobs that fail themselves or transitively depend on one |
| PublishTheorems.ExpectedAreDoomed | scripts/ci-release-publish.ts:589-590 | what is returned are the names of exactly the doomed jobs, each once, in input order |
| PublishTheorems.ScheduleIndependence | scripts/ci-release-publish.ts:546-591 | neither the schedule nor the limit changes the result |
| CycleCheck.Search.Visit | scripts/ci-release-publish.ts:536-543 | visiting finishes a name and all it depends on, or reports a real path whose last name is already on it |
| CycleCheck.Search.Finish | scripts/ci-release-publish.ts:542-542 | a name is finished after everything it depends on |
| CycleCheck.AssertAcyclic | scripts/ci-release-publish.ts:533-545 | returns normally exactly when the known dependencies have no cycle; otherwise the chain closes |
| CycleCheck.FinishingOrderRanks | scripts/ci-release-publish.ts:533-545 | a finishing order of all names proves the graph acyclic |
| DependencyGraph.RankedIsAcyclic | scripts/ci-release-publish.ts:533-545 | a rank that falls along every edge excludes cycles |
| DependencyGraph.AcyclicHasRank | scripts/ci-release-publish.ts:533-545 | an acyclic graph has such a rank |
| GuardInversion.CombinedText | scripts/inline-functions.ts:293-356 | the generated text is the text of the combined tree, parentheses included |
| GuardInversion.FlipExact | scripts/inline-functions.ts:321-334 | a flipped comparison decides the opposite exactly on ordered operands |
| GuardInversion.InverseDecides | scripts/inline-functions.ts:315-345 | the inverse decides the opposite, throws alike and leaves the same state |
| GuardInversion.GuardInversionSound | scripts/inline-functions.ts:347-360 | guards in a row and the combined condition run the tail in the same cases, with the same effects |
| GuardParser.RoundTrip | scripts/inline-functions.ts:303-313 | parsing the text of a canonical tree gives the tree |
| GuardParser.CombinedParses | scripts/inline-functions.ts:347-360 | the combined condition's text parses to the combined tree |
| GuardParser.InvertedTextDecides | scripts/inline-functions.ts:315-360 | the parsed text of the combined condition decides as the guards do |
| FlipExactness.TotalOrderSuffices | scripts/inline-functions.ts:321-334 | where every comparison finds an order, inversion is sound for all guards |
| FlipExactness.UnsafeDiffers | scripts/inline-functions.ts:321-334 | for every guard list with an unsafe flip, a run on which guards and combined condition differ |
| FlipExactness.InversionExact | scripts/inline-functions.ts:315-360 | inversion is sound on all runs exactly when no flipped relational operand can be anything but a boolean |
| FreshNames.CandidatesDiffer | scripts/inline-functions.ts:501-507 | different suffixes give different names |
| FreshNames.TakenBound | scripts/inline-functions.ts:501-507 | no more candidates can be taken than names are |
| FreshNames.FreshName | scripts/inline-functions.ts:501-507 | the search ends on the base if free, else on the lowest free number |
| FreshNames.FreshExactly | scripts/inline-functions.ts:501-507 | a name is the one found exactly when it is the base and free, or the lowest free number of a taken base |
| BodyScope.StmtsAgree | scripts/inline-functions.ts:303-313 | substituted statements run as the original ones wherever names read the same and neither a block nor a scope inside an operation hides a replacement |
| BodyScope.SubstText | scripts/inline-functions.ts:293-301 | substituting in the tree is substituting in the text |
| BodyScope.SubstCombined | scripts/inline-functions.ts:347-360 | combining substituted guards is substituting in the combined guards |
| StrictInline.BuildReplacement | scripts/inline-functions.ts:837-900 | the plan of a call site: names new to the block, pairwise distinct and reserved afterwards |
| StrictInline.RenameCollidingLocals | scripts/inline-functions.ts:793-826 | only locals of the tail itself are renamed, and only if their name is taken; the names they end with are new to the block, pairwise distinct and reserved afterwards |
| StrictInline.PlanCallSites | scripts/inline-functions.ts:772-785 | all names chosen for all call sites in one block are pairwise distinct |
| StrictInline.BlockUndisturbed | scripts/inline-functions.ts:763-785 | names already in the block keep their values |
| StrictMeaning.PrefixRuns | scripts/inline-functions.ts:845-880 | the prefix evaluates the arguments once, left to right, stopping where the call would |
| StrictMeaning.StrictInlineSound | scripts/inline-functions.ts:837-933 | without capture, where the block may declare the new names, what the body takes from outside means the same, and every flipped comparison finds an order: the replacement completes or throws as the call does, in the same state |
| CaptureExactness.CaptureDiffers | scripts/inline-functions.ts:837-933 | whatever is in the way (captured, hidden, declared twice or around the call), a scope and a run on which call and replacement differ |
| CaptureExactness.StrictInlineExact | scripts/inline-functions.ts:837-933 | with nothing in the way they agree on every host, scope and run with ordered flips; on a host that records what it reads, in all scopes and runs exactly then |
| CaptureConditions.CapturedExactly | scripts/inline-functions.ts:772-826 | the captured names in terms of helper, arguments and block: temporaries of used parameters and lowest free numbers of taken locals that the body takes from outside |
| CaptureConditions.HiddenExactly | scripts/inline-functions.ts:837-900 | the hidden names in terms of helper, arguments and block: those mentioned where the name they become is declared anew |
| CaptureConditions.InlinableExactly | scripts/inline-functions.ts:837-933 | the whole condition in terms of helper, arguments, block and the scopes around the call |
| CallSites.CallSitesSound | scripts/inline-functions.ts:763-785 | the block with every call site replaced runs as the block with the calls, with the new names of all sites in scope |
| CapturedInputs.OuterTempIsCaptured | scripts/inline-functions.ts:867-876 | a helper that mentions an outer variable named like a temporary changes its meaning |
| CapturedInputs.ChainedGuardedIsCaptured | scripts/inline-functions.ts:891-897 | a guarded helper that had another call inlined into it reads its own temporary too early |
| CapturedInputs.ChainedInLoopIsCaptured | scripts/inline-functions.ts:867-888 | so does a helper that had another call inlined into a loop |
| CapturedInputs.ChainedInCallbackIsCaptured | scripts/inline-functions.ts:867-888 | and one that had another call inlined into a callback |
| CapturedInputs.NumberedLocalIsCaptured | scripts/inline-functions.ts:793-826 | a helper with a renamed local that captures an outer name changes its meaning |
| CapturedInputs.ParameterIsRedeclared | scripts/inline-functions.ts:772-826 | a local that has the name of a parameter, or of a catch variable, around the block is declared twice |
| CapturedInputs.BoundElsewhereIsCaptured | scripts/inline-functions.ts:414-437 | a name that the helper takes from outside and also binds elsewhere passes the shadow check and differs |
| CapturedInputs.CheckSuffices | scripts/inline-functions.ts:489-498 | no name taken from outside is declared around the call exactly when the shadow check passes and none of those that the helper binds elsewhere is |
| TextEdits.SubText | scripts/inline-functions.ts:293-301 | splicing from right to left equals replacing all edits at once |
| TextEdits.Distributes | scripts/inline-functions.ts:293-301 | substitution distributes over pieces that no edit straddles |
| UnionFind.UnionFind.Find | scripts/cleanup-scan.ts:176-185 | returns the representative, ends on every reachable map, and compression changes nobody's representative |
| UnionFind.UnionFind.Union | scripts/cleanup-scan.ts:186-191 | classes afterwards are the components of the unions made so far |
| UnionFind.Compressed | scripts/cleanup-scan.ts:178-185 | linking an element to its root keeps every root |
| UnionFind.Linked | scripts/cleanup-scan.ts:186-191 | linking one root to another moves exactly its class |
| UnionFind.MergedPartition | scripts/cleanup-scan.ts:186-191 | merging two classes is adding one edge |
| CloneWindows.BuildBuckets | scripts/cleanup-scan.ts:196-215 | each bucket holds exactly the windows with its hash |
| CloneWindows.MatchBuckets | scripts/cleanup-scan.ts:216-224 | exactly the windows that share a hash are matched, and each bucket is joined |
| CloneWindows.JoinAdjacent | scripts/cleanup-scan.ts:225-225 | adjacent matched windows are joined |
| CloneWindows.SameComponents | scripts/cleanup-scan.ts:216-225 | joining to the first and to the next window connects what the full relation connects |
| CloneWindows.FindClasses | scripts/cleanup-scan.ts:194-236 | clusters are exactly the components of "same hash, or adjacent" on the matched windows |
| CloneRegions.FileRegions | scripts/cleanup-scan.ts:252-268 | regions of a file are at least a line apart, cover exactly its windows, and count each line once |
| CloneRegions.GroupByFile | scripts/cleanup-scan.ts:239-249 | positions decode to their files, none lost or repeated |
| CloneRegions.DescribeCluster | scripts/cleanup-scan.ts:237-268 | a cluster's weight is the number of distinct significant lines its windows cover |
| CloneRegions.DetectClones | scripts/cleanup-scan.ts:194-273 | exactly the clusters with two different regions, each as often as it occurs, heaviest first |
| CloneRegions.KeepsShared | scripts/cleanup-scan.ts:270-270 | a cluster is dropped exactly if it has no two different regions |
| CloneRegions.SameTextsSameKey | scripts/cleanup-scan.ts:201-207 | windows with the same seven texts have one hash; with an injective hash only they do |
| CloneRegions.CopiesAreReported | scripts/cleanup-scan.ts:194-273 | seven significant lines that two files share are in one reported cluster, in both files |
| CloneRegions.OnlyCopiesAreReported | scripts/cleanup-scan.ts:194-273 | with an injective hash, every reported line is one of seven that stand elsewhere too |
| PublicSurface.ComputePublicSurface | scripts/cleanup-scan.ts:291-337 | public files are exactly those reached through `export *`; public names exactly their named re-exports |
| PublicSurface.EntriesAre | scripts/cleanup-scan.ts:294-313 | the entry points are those of all packages |
| VersionStamp.MagicQualifies | packages/natives/native/version-sentinel.js:18-18 | the magic holds no NUL and cannot overlap itself |
| VersionStamp.StampNativeBytes | scripts/stamp-native-version.ts:138-166 | the slot is overwritten in place, or the first failing check is reported and nothing changes; false exactly when nothing changed |
| VersionStamp.StampRefuses | scripts/stamp-native-version.ts:138-160 | each error is reported exactly when its reason is the first there is; the slot is written exactly when there is none |
| VersionStamp.StampedSlot | scripts/stamp-native-version.ts:148-157 | a stamped image has one slot, the same, exactly when the version does not contain the magic |
| VersionStamp.StampTwice | scripts/stamp-native-version.ts:133-137 | stamping the same version again returns false and changes nothing |
| VersionStamp.Restamp | scripts/stamp-native-version.ts:138-166 | stamping one version and then another gives the bytes of stamping the other alone |
| VersionStamp.StampReadsBack | packages/natives/native/version-sentinel.js:33-37 | a stamped image carries the stamp of its version and of no other, longer or shorter |
| AdhocSignature.RefreshAdhocSignature | scripts/stamp-native-version.ts:75-126 | the in-place refresh computes the specified bytes, change flag and error |
| AdhocSignature.ScanCommands | scripts/stamp-native-version.ts:80-90 | the last code signature command wins; reading past the end is an error |
| AdhocSignature.RefreshSignature | scripts/stamp-native-version.ts:95-124 | entries are refreshed in order, each reading the bytes as they are then |
| AdhocSignature.RefreshSlot | scripts/stamp-native-version.ts:111-123 | one slot is compared and overwritten, or lies outside the file |
| SignatureLayout.LastSignatureWins | scripts/stamp-native-version.ts:83-89 | of load commands one after another, the last code signature command is the one found |
| SignatureLayout.ImageReadsBack | scripts/stamp-native-version.ts:76-90 | an image with such commands is read as written: its last signature, or none |
| SignatureLayout.BlobReadsBack | scripts/stamp-native-version.ts:91-98 | the entries of the super blob are where its offsets say |
| SignatureLayout.DirectoryReadsBack | scripts/stamp-native-version.ts:98-111 | a code directory with given header fields reads back as these fields; an identity's or one with another hash is refused |
| SignatureLayout.Pow2Adds | scripts/stamp-native-version.ts:111-111 | the page size is a power of two |
| SignatureLayout.PagesTile | scripts/stamp-native-version.ts:112-117 | the pages put together are the signed bytes, and each but the last is full |
| SignatureLayout.ByteOnPage | scripts/stamp-native-version.ts:113-116 | signed byte x is byte x - page * pageSize of page x / pageSize |
| SignatureLayout.OnlyItsPage | scripts/stamp-native-version.ts:113-116 | changing a signed byte changes exactly its page |
| SignatureLayout.ValidMeans | scripts/stamp-native-version.ts:112-123 | a slot is right exactly if it holds the digest, cut to size, of its part of the signed bytes |
| SignatureKept.HeadersDecide | scripts/stamp-native-version.ts:76-109 | images that agree on load commands and signature headers are parsed alike |
| SignatureKept.RefreshVerifies | scripts/stamp-native-version.ts:64-74 | after a refresh every page hash is right, only slot bytes differ, and the result says whether any does |
| SignatureKept.UnchangedExactlyWhenValid | scripts/stamp-native-version.ts:119-125 | nothing changes exactly when the signature was valid |
| SignatureKept.RefreshTwice | scripts/stamp-native-version.ts:64-125 | a second refresh returns false and changes nothing |
| StampedImage.StampNativeVersion | scripts/stamp-native-version.ts:175-182 | stamp, and refresh when signing a Mach-O image; nothing is written back when the stamp was there |
| StampedImage.StampsOnly | scripts/stamp-native-version.ts:180-186 | without signing, or for an image that is no Mach-O, the file changes in its slot only, which then holds the version and NULs |
| StampedImage.StampKeepsSignature | scripts/stamp-native-version.ts:168-182 | a valid signature stays valid, the slot holds the version, and only payload and hash slots change |
| StampedImage.OtherPagesKeepTheirSlots | scripts/stamp-native-version.ts:111-123 | only the slots of pages that hold payload change |
| StampedImage.ValidIsUnique | scripts/stamp-native-version.ts:111-123 | outside its slots a validly signed image determines them |
| StampedImage.SlotFoundAgain | scripts/stamp-native-version.ts:148-157 | the slot is found again in the signed image exactly when the version does not contain the magic and no refreshed digest completes an occurrence of it |
| StampedImage.RestampSigned | scripts/stamp-native-version.ts:168-182 | if the first version does not contain the magic and no refreshed digest completes an occurrence of it, the slot is found again and stamping twice leaves what the second stamp alone leaves, hashes included |
| Intervals.Merge | scripts/session-stats/optimize_read_config.py:157-168 | the same lines, in separated normal form if no interval is empty; a reversed one is left over exactly when it starts away from the lines before it |
| Intervals.NormalIsUnique | scripts/session-stats/optimize_read_config.py:157-168 | a set of lines has one normal form |
| Intervals.Contained | scripts/session-stats/optimize_read_config.py:171-175 | in a normal form, one interval contains [s, e] exactly when all its lines are covered |
| Intervals.Subtract | scripts/session-stats/optimize_read_config.py:178-194 | set difference, in normal form |
| Intervals.ChunkRange | scripts/session-stats/optimize_read_config.py:394-405 | the loop builds the chunks one after another |
| Intervals.ChunksTile | scripts/session-stats/optimize_read_config.py:394-405 | chunks follow one another from start to end, all full but the last |
| Intervals.ChunkingEnds | scripts/session-stats/optimize_read_config.py:394-405 | the cursor passes the end exactly when there is nothing to do or the cap is at least one |
| ReadReplay.EffectiveReturned | scripts/session-stats/optimize_read_config.py:342-374 | the longest part of what was asked for that file size and caps allow, at least one line |
| ReadReplay.ReturnedMeans | scripts/session-stats/optimize_read_config.py:342-374 | line by line: the first line, and every later one that the kind of read asks for and that file size, line cap and byte cap allow |
| ReadReplay.CostMeans | scripts/session-stats/optimize_read_config.py:377-391 | lines at the rate of the file, 0.35 of it for a bare read of a file that is summarized |
| ReadReplay.ReplayCalls | scripts/session-stats/optimize_read_config.py:423-442 | a call is charged exactly when the calls before it did not return all its lines |
| ReadReplay.Gaps | scripts/session-stats/optimize_read_config.py:443-447 | the gaps are the normal form of observed minus delivered lines |
| ReadReplay.SecondPhaseTotal | scripts/session-stats/optimize_read_config.py:448-455 | gap by gap each missing line is charged once and each chunk one roundtrip |
| ReadReplay.ReplayPair | scripts/session-stats/optimize_read_config.py:408-456 | the bill is that of the two phases on sets of lines, and all observed lines end up covered |
| ReplayBill.ChargedMeans | scripts/session-stats/optimize_read_config.py:433-438 | a call is charged exactly if it brings a line that no call before it brought |
| ReplayBill.BillIs | scripts/session-stats/optimize_read_config.py:408-456 | the bill: the cost of the charged calls, each missing line at the rate of the file, and an overhead for each charged call and for each of the fewest chunks that the stretches of missing lines take |
| ReplayBill.PerCallMeans | scripts/session-stats/optimize_read_config.py:396-398 | a chunk may be as long as the line cap allows and, unless it is one line, the bytes do |
| ReadReplay.BillIsUnique | scripts/session-stats/optimize_read_config.py:408-456 | the sets of lines determine tokens and calls |
| Intervals.LengthIsSize | scripts/session-stats/analyze_selector_reads.py:219-220 | summed lengths of a merged list are its lines less what reversed intervals fall short of |
| SelectorReads.PositionMeans | scripts/session-stats/analyze_selector_reads.py:136-149 | each position says which lines of the follow-up lie outside the first read, and on which side |
| SelectorReads.AnalyzeGroup | scripts/session-stats/analyze_selector_reads.py:193-269 | covered, extra and gap lines and span are sizes of sets of lines less what reversed bounds fall short of, regions are counted; positions and kinds are counted once each |
| SelectorReads.GivenMeans | scripts/session-stats/analyze_selector_reads.py:193-218 | the lines that count are those of the first read and of the follow-ups with known bounds |
| SelectorReads.LandedInOrder | scripts/session-stats/analyze_selector_reads.py:204-218 | exactly the follow-ups with known bounds are classified, each once, in order |
| SelectorReads.CoverageAccounts | scripts/session-stats/analyze_selector_reads.py:219-227 | the sums are sizes of sets of lines; `covered` exactly when no stray reversed range is given |
| SelectorReads.CoverageIsUnique | scripts/session-stats/analyze_selector_reads.py:219-227 | coverage depends on the lines read, not on number or order of the reads |
| SelectorReads.NoExtraExactlyInside | scripts/session-stats/analyze_selector_reads.py:204-227 | no extra line exactly when every follow-up is classified as inside |
| SelectorReads.NoGapOneRegion | scripts/session-stats/analyze_selector_reads.py:204-227 | without a follow-up in a gap there is one region and no gap line |
| SelectorReads.ReversedRangeMiscounts | scripts/session-stats/analyze_selector_reads.py:70-81 | a group that covers three lines and is said to cover minus one |
| TopResults.TopOfTruncated | scripts/session-stats/audit.ts:497-501 | sorting and truncating early never changes the final list |
| TopResults.TopIsLargest | scripts/session-stats/audit.ts:519-520 | the list is the largest results in descending order, and none left out is larger |
| TopResults.TopBuffer.Push | scripts/session-stats/audit.ts:496-502 | whatever follows, the buffer will end as all large results so far would |
| TopResults.TopBuffer.Finish | scripts/session-stats/audit.ts:519-520 | the buffer ends as the twelve largest of all results over the threshold |
| SessionScan.ScanFile | scripts/session-stats/audit.ts:310-522 | residency by tool is what later requests re-paid, and the top results are the twelve largest |
| SessionScan.LogIndexes | scripts/session-stats/audit.ts:468-485 | a result is never logged under a request that has not been made |
| SessionLog.LoggedAs | scripts/session-stats/audit.ts:472-508 | every result is logged once, in order: under the name and request of the call it answers, or, if there is none, its own name and the requests so far |
| SessionLog.LargeExactly | scripts/session-stats/audit.ts:497-498 | the results over the threshold are kept, each as often as it occurs, and no others |
| SessionScan.ResidencyIsRepaid | scripts/session-stats/audit.ts:508-513 | result tokens times later requests equals, summed over all requests, the tokens each carried again |
| LineSplit.SplitAtHeadings | scripts/fix-changelogs.ts:144-207 | the index loops of both parser levels compute the split |
| LineSplit.SplitOfFlat | scripts/fix-changelogs.ts:144-207 | a split with headings in their places is the split of its lines |
| LineSplit.FlatOfSplit | scripts/fix-changelogs.ts:144-207 | splitting loses and moves no line |
| ChangelogDocument.ParseChangelog | scripts/fix-changelogs.ts:144-173 | the document of the numbered lines |
| ChangelogDocument.ParseReleaseSection | scripts/fix-changelogs.ts:175-207 | the section of a heading and its body |
| ChangelogDocument.ParseOfLines | scripts/fix-changelogs.ts:144-207 | parsing the lines of a document gives the document |
| ChangelogDocument.LinesOfParse | scripts/fix-changelogs.ts:144-207 | the parsed document has all lines of the file, in order |
| ChangelogRender.TrimBlankLines | scripts/fix-changelogs.ts:209-215 | blank lines at both ends go, nothing else |
| ChangelogRender.RenderChangelog | scripts/fix-changelogs.ts:509-536 | the loops print the specified lines and drop empty ones at the end |
| ChangelogRender.PrintTidy | scripts/fix-changelogs.ts:509-536 | documents that differ in blank margins and empty subsections print alike |
| ChangelogBlocks.PrintIsBlocks | scripts/fix-changelogs.ts:509-536 | a printed file is its headings and texts with exactly one empty line between two of them and none at either end |
| ChangelogRoundTrip.ParseOfPrint | scripts/fix-changelogs.ts:144-207 | parsing a printed document finds it again, up to blank margins and empty subsections |
| ChangelogRoundTrip.PrintIsStable | scripts/fix-changelogs.ts:509-536 | printing what was parsed from a printed file gives the file |
| ChangelogRoundTrip.ParsedText | scripts/fix-changelogs.ts:144-171 | numbering lines does not change what is parsed |
| ChangelogRoundTrip.SplitArchiveFooter | scripts/fix-changelogs.ts:548-557 | the body without the footer, or the file as it is when there is none |
| ChangelogRoundTrip.FooterRoundTrip | scripts/fix-changelogs.ts:548-561 | splitting undoes appending exactly for bodies without trailing blank lines and the empty file |
| ChangelogRoundTrip.FooterOfPrinted | scripts/fix-changelogs.ts:548-561 | splitting undoes appending for every printed body |
| ChangelogCollapse.CollapseChangelogTail | scripts/fix-changelogs.ts:570-615 | unchanged when it fits or has at most two releases, otherwise the largest collapse that fits |
| ChangelogCollapse.CountKept | scripts/fix-changelogs.ts:588-608 | the most releases, two or more, whose lines fit the budget |
| ChangelogCollapse.HeadingsAreAll | scripts/fix-changelogs.ts:581-584 | the heading lines are exactly the lines with a release heading |
| ChangelogCollapse.SizeIsLength | scripts/fix-changelogs.ts:587-593 | what is compared with the budget is the length of the lines as written, newlines included |
| ChangelogCollapse.CollapseKeeps | scripts/fix-changelogs.ts:563-569 | a line prefix with at least two releases; kept and dropped add up; it fits unless only two are left; one more would not |
| ChangelogCollapse.CollapseIsUnique | scripts/fix-changelogs.ts:602-614 | file and budget determine the collapse |
| ChangelogCollapse.FitsDownward | scripts/fix-changelogs.ts:602-608 | fewer releases fit whenever more do |
| ChangelogItems.ParseItems | scripts/fix-changelogs.ts:241-271 | items are bullets with the lines up to the next one |
| ChangelogItems.RemovesPicked | scripts/fix-changelogs.ts:273-281 | on consecutive lines, removing the line ranges of some items removes exactly these items |
| ChangelogItems.LeftIsProper | scripts/fix-changelogs.ts:328-334 | what is left are the other items, unchanged, and none of the removed ones |
| ChangelogItems.LeftBag | scripts/fix-changelogs.ts:328-334 | text before is text left plus text of the removed items, counting repetitions |
| ChangelogItems.SubsectionHasItem | scripts/fix-changelogs.ts:287-294 | true exactly when some item has the same trimmed text |
| ChangelogItems.AppendSubsectionLines | scripts/fix-changelogs.ts:225-239 | the lines below the existing ones, a blank line between unless both are bullets |
| ChangelogItems.SolidAppended | scripts/fix-changelogs.ts:225-239 | appending keeps all text, in order |
| ChangelogItems.CompactAdjacentListSpacing | scripts/fix-changelogs.ts:366-384 | items without blank lines after them, if the block starts with an item |
| ChangelogItems.CompareDecides | scripts/fix-changelogs.ts:374-381 | the comparison of non-blank lines fails exactly when text stands before the first item |
| ChangelogItems.CompactKeeps | scripts/fix-changelogs.ts:366-384 | compaction keeps all text, in order |
| ChangelogNormalize.NormalizeSubsections | scripts/fix-changelogs.ts:393-416 | the loop with its map by title gathers the specified subsections: empty ones left out, repeated ones appended to the first; those without text are counted as removed, the others that are gone as merged |
| ChangelogNormalize.SortedUnder | scripts/fix-changelogs.ts:418-420 | ordering by title moves no text to another title |
| ChangelogNormalize.NormalizeSection | scripts/fix-changelogs.ts:386-426 | the specified section: subsections gathered, those of [Unreleased] sorted by title, leading text trimmed |
| ChangelogNormalize.NormalSectionKeeps | scripts/fix-changelogs.ts:386-426 | a normalized section keeps heading and leading text, has each heading once and not empty, the text under it in order, and whole the entries that nothing is put below |
| ChangelogNormalize.TitleOrder | scripts/fix-changelogs.ts:361-364 | a known title's place in the list; all others come after it |
| ChangelogLayout.HeadingOrder | scripts/fix-changelogs.ts:386-426 | headings come in the order in which they are first not empty; those of [Unreleased] in the order of the known titles, the others after them in that order |
| ChangelogLayout.CompactTwice | scripts/fix-changelogs.ts:366-384 | compacting twice is compacting once |
| ChangelogLayout.CompactTight | scripts/fix-changelogs.ts:366-384 | a compacted block has the entries it had, and no blank line right above a bullet |
| ChangelogLayout.NormalTight | scripts/fix-changelogs.ts:386-426 | nor has a normalized subsection that starts with an entry, if no heading was repeated |
| ChangelogLayout.NormalTwice | scripts/fix-changelogs.ts:386-426 | normalizing a normalized section changes nothing, unless a heading was repeated |
| ChangelogKeys.KeysAppended | scripts/fix-changelogs.ts:225-239 | appending an item adds exactly that item |
| ChangelogMoves.MovesPresent | scripts/fix-changelogs.ts:642-648 | every item moved so far is under its title |
| ChangelogMoves.MovesUnder | scripts/fix-changelogs.ts:640-648 | moving items only adds text below what is under their title |
| ChangelogPromote.TakeOut | scripts/fix-changelogs.ts:634-638 | the items that pass the test, and the subsection without them |
| ChangelogLines.SortedOut | scripts/fix-changelogs.ts:634-638 | each item that passes is taken out and each other one stays, both in the order they had |
| ChangelogPromote.AddItems | scripts/fix-changelogs.ts:640-648 | each item is appended under the title unless it is there |
| ChangelogPromote.PromoteSection | scripts/fix-changelogs.ts:633-649 | one released section stripped of its promotable items, which move to the first [Unreleased], created in front if need be |
| ChangelogPromote.Revisit | scripts/fix-changelogs.ts:338-350 | a section that comes up twice because of the insertion has nothing left to move |
| ChangelogPromote.PromoteItems | scripts/fix-changelogs.ts:630-650 | the iteration, insertion during it included, strips every released section and moves all items in file order |
| VersionOrder.CompareVersionTitlesDesc | scripts/fix-changelogs.ts:445-454 | negative exactly when the left version is newer, positive exactly when the right one is: the larger first differing part decides, missing parts are zero |
| VersionOrder.DifferenceDecides | scripts/fix-changelogs.ts:445-454 | the specified difference has the sign that the first differing parts give |
| VersionOrder.NewerOrSame | scripts/fix-changelogs.ts:445-454 | of two versions one is newer, unless all parts agree, as those of `1.0` and `1.0.0` do |
| VersionOrder.NextPartDecides | scripts/fix-changelogs.ts:446-453 | after the same parts the larger next part is the newer version, whatever follows; a missing part counts as zero |
| VersionOrder.NotOlderIsPreorder | scripts/fix-changelogs.ts:445-454 | the comparison is a total preorder |
| ChangelogFix.ParsedConsecutive | scripts/fix-changelogs.ts:144-207 | line numbers within a parsed subsection run on without a gap |
| ChangelogFix.CollectReleasedItemKeys | scripts/fix-changelogs.ts:296-307 | the entries of all released sections |
| ChangelogFix.DropDuplicates | scripts/fix-changelogs.ts:317-336 | the first [Unreleased] loses exactly the entries that are released already |
| ChangelogLines.DuplicatesGo | scripts/fix-changelogs.ts:309-336 | the first [Unreleased] loses an entry exactly when a release has it, now or in history; all other sections stay |
| ChangelogFix.ArrangePermutes | scripts/fix-changelogs.ts:456-462 | whole sections are reordered: [Unreleased] first, then newest first |
| ChangelogFix.NewestFirst | scripts/fix-changelogs.ts:456-462 | [Unreleased] stands before all releases, and no release before one with a larger first differing part |
| ChangelogFix.FixChangelogContent | scripts/fix-changelogs.ts:617-666 | drop, promote, normalize, order and print: the file that the specification of these steps gives, with the numbers of entries dropped and promoted and of subsections merged and removed |
| ChangelogConservation.DroppedText | scripts/fix-changelogs.ts:309-336 | dropping duplicates loses no line of text |
| ChangelogConservation.PromotedIsThere | scripts/fix-changelogs.ts:630-650 | a promoted entry is in [Unreleased] under its heading and gone from its section |
| ChangelogOnce.PromotedOnce | scripts/fix-changelogs.ts:617-650 | after the promotion a promotable entry stands in [Unreleased] under its heading exactly once |
| ChangelogConservation.UnreleasedGains | scripts/fix-changelogs.ts:640-648 | under each heading [Unreleased] keeps its text and gains that of entries it lacked |
| ChangelogConservation.TextIsConserved | scripts/fix-changelogs.ts:617-666 | without historical entries the arranged sections have exactly the lines of text under headings of the original |
| ChangelogConservation.NothingInvented | scripts/fix-changelogs.ts:617-666 | with historical entries no text under a heading is new |
| ChangelogConservation.ReleasesAreKept | scripts/fix-changelogs.ts:617-666 | every release without its promoted entries is in the fixed file, normalized: heading, leading text, and its text under its headings in order |
| ChangelogConservation.PromotableIsUnreleased | scripts/fix-changelogs.ts:617-666 | promotable entries stand whole in [Unreleased] of the fixed file, in the one subsection with the heading they had |
| ChangelogLines.EntryIsParsed | scripts/fix-changelogs.ts:144-271 | a bullet of the file, with the lines up to the next bullet or heading, is an entry under the headings above it, with its line number |
| ChangelogLines.MarkedEntryMoves | scripts/fix-changelogs.ts:617-666 | a bullet of a release whose line is promotable stands whole in the fixed file's [Unreleased], under the heading it had |
| ChangelogLines.UnmarkedEntryStays | scripts/fix-changelogs.ts:617-666 | the text of any other bullet of a release stays in that release, under its heading |
| ChangelogFixedFile.FixedFileReadsBack | scripts/fix-changelogs.ts:617-666 | parsing the fixed file finds the fixed sections, and printing them gives the file |
| ChangelogText.FixedIsOrdered | scripts/fix-changelogs.ts:617-666 | so do the sections that parsing the fixed file finds |
| ChangelogText.FixKeepsText | scripts/fix-changelogs.ts:617-666 | without historical entries the fixed file has exactly the lines of text of the original: before the first release, leading, or under a heading |
| ChangelogText.FixInventsNoText | scripts/fix-changelogs.ts:617-666 | with historical entries no line of text of the fixed file is new |
| ChangelogIdempotent.NormalSame | scripts/fix-changelogs.ts:386-426 | normalizing does not see line numbers, blank margins and empty subsections |
| ChangelogIdempotent.NothingLeft | scripts/fix-changelogs.ts:309-336 | in a fixed file there is no duplicate to drop |
| ChangelogIdempotent.ArrangeTwice | scripts/fix-changelogs.ts:456-462 | arranging what is arranged changes nothing |
| ChangelogIdempotent.FixTwice | scripts/fix-changelogs.ts:617-666 | fixing a fixed file changes nothing, if no heading with text under it was repeated within a section |
| ChangelogIdempotent.RepeatedHeadingChanges | scripts/fix-changelogs.ts:403-408 | a file with a repeated heading that the second fix changes again |
| DiffPairing.Scan | scripts/fix-changelogs.ts:679-740 | the loop finds the lists of added and removed bullets and the set of hunks with an added release heading |
| DiffLines.PathMeans | scripts/fix-changelogs.ts:687-696 | the path is that of the last `+++ b/` line, unless another file has begun since |
| DiffLines.NoPath | scripts/fix-changelogs.ts:683-690 | before the first `+++ b/` line there is no path |
| DiffLines.HunkMeans | scripts/fix-changelogs.ts:692-703 | hunks are numbered within their file by their headers |
| DiffLines.VisibleMeans | scripts/fix-changelogs.ts:705-705 | a line is looked at exactly if it stands in a hunk of a file with a path |
| DiffLines.BulletIsListed | scripts/fix-changelogs.ts:707-738 | every bullet line that is looked at is one entry of its list, in order, with path, hunk, text and line |
| DiffLines.ListedIsBullet | scripts/fix-changelogs.ts:707-738 | the lists have no other entries |
| DiffLines.HeadedMeans | scripts/fix-changelogs.ts:710-714 | a hunk is marked exactly when one of its lines adds a release heading |
| DiffPairing.Pair | scripts/fix-changelogs.ts:742-761 | a bullet is paired exactly when fewer of its path and text precede it than the other side has |
| DiffPairing.PairsAreMinimum | scripts/fix-changelogs.ts:753-761 | per path and text the pairs number the minimum of additions and removals |
| DiffPairing.PromotableIsExcess | scripts/fix-changelogs.ts:763-780 | a hunk without added heading promotes max(0, unpaired additions - unpaired removals) bullets |
| DiffLines.CollectPromotable | scripts/fix-changelogs.ts:679-791 | exactly the new entries of the diff are reported: added bullets without counterpart, in excess of their hunk's removals, in a hunk that adds no release heading |
| DiffLines.NewEntriesAreExcess | scripts/fix-changelogs.ts:763-780 | counted on the lines of the diff, a hunk has as many new entries as unpaired additions exceed unpaired removals, and none if it adds a release heading |
| DiffLines.HunkPromotes | scripts/fix-changelogs.ts:679-791 | the same for the lines between a header and the end of its hunk |
| DiffPairing.LineNumberTrue | scripts/fix-changelogs.ts:686-737 | a bullet's number is its line in the new file exactly when no earlier added line of the hunk looks like a path |
| DiffPairing.PathLookalike | scripts/fix-changelogs.ts:687-690 | a diff on which the reported line and path are wrong |
| DiffPairing.ReportedLinesHoldBullets | scripts/fix-changelogs.ts:679-791 | every reported line of the new version holds a bullet |
| StableSort.SortSorts | scripts/fix-changelogs.ts:418-420 | sorting is a permutation into order |
| StableSort.SortStable | scripts/fix-changelogs.ts:418-420 | elements that compare equal keep their order |
| StableSort.SortInTurn | scripts/fix-changelogs.ts:418-420 | elements that compare equal keep any order the given ones are in |

## Left out

- Processes, network, git, npm and codesign calls, file I/O and temporary files: effects outside the model; their outcomes are parameters.
- Publishing jobs with equal names: the runner is modelled for distinct names, as its callers pass them; the text inside a block and dry runs, which take no pack lock, are not modelled.
- Whether a job packs or publishes successfully is a fixed property of the job.
- StrictMeaning.StrictInlineSound: locals keep the value they are initialized with, so assignments to them belong to opaque operations, and an operation reads all it mentions when it runs, so a closure that runs later is not told apart. That what the body takes from outside means the same at the call is a condition: the pass's own check does not see names that the helper binds elsewhere, declarations in sibling `case` clauses, or a `var` hoisted out of a nested block.
- CaptureExactness.StrictInlineExact: for a tail that lands in the block, assumes that no local is mentioned above its declaration, which TypeScript rejects (TS2448). Enums declared in a tail, direct `eval` and `new.target` are not modelled; functions, classes and, without a guard, destructured locals in a tail are skipped by the pass, and a destructured local under a guard counts as one local for each name.
- CapturedInputs.CheckSuffices: takes all names bound inside the helper as names the pass counts as its own; it does not count parameters of methods and accessors.
- The inliner's member reads outside strict mode, type-only syntax and indentation; "no shadowing", "no parameter writes" and "every reference is a discarded call" are preconditions.
- Operators other than the eight comparisons, `!`, `&&` and `||` are opaque atoms or, if they bind weaker, opaque loose expressions of the guards.
- ChangelogPromote.PromoteItems: sections and subsections are values replaced at their index, so that aliasing between them cannot be expressed.
- ChangelogFix.FixChangelogContent: titles whose dotted parts are not numbers make the original's comparison return NaN; here parts are integers. `NormalizeSubsections` merges entries across repeated headings as text, so an entry may absorb text of the next one.
- ChangelogLines.UnmarkedEntryStays: speaks of the text of an entry; whole it stays where nothing is put below it (`NormalSectionKeeps`).
- Rebuilding released sections from history.
- ChangelogIdempotent.FixTwice: is about files whose sections repeat no heading; on which other files a second fix changes nothing is not characterised, nor what it does with promotable lines.
- Regular expressions of the changelog parser, and line endings: a line is given by its class.
- DiffLines.HunkPromotes: is about diffs that have each file once and no added line that looks like a path; for all diffs, hunk by hunk, the count is that of `NewEntriesAreExcess`.
- CloneRegions.CopiesAreReported: is about copies in two files; copies in one file that lie close to each other are one region, which the original does not report.
- Normalizing source lines, the package and specifier resolution of the scanner: lines, hash and resolver are parameters.
- CloneWindows.FindClasses: assumes files of at most 2^24 significant lines, as the position encoding does.
- Fat and 32-bit images, and signatures by an identity, are errors of the refresh, as in the original.
- ReadReplay.ReplayPair: token rates and costs are reals, so floating-point rounding is not modelled.
- SelectorReads.AnalyzeGroup: `regions` of groups with an empty or reversed range is the length of the merged list, not a number of regions of lines; the loop over groups is left out.
- Parsing of selectors and footers, per-file estimates, sweeps, plots and reports of the session statistics.
- Session fields other than calls, results and requests: titles, turns, usage and per-path read counts.
