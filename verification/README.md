# Verified models of the non-blocking core

This project models the protocols in the repository's `common/` directories and proves what they are for:
multi-word atomic operations with helping and reusable descriptors, deferred reclamation, the containers
these rest on, and two places where a fast form must agree with a simple one.

Concurrent protocols are step relations over any number of threads under sequential consistency. A step
runs one thread up to and including its next access to shared memory. Where a call nests (helping an
operation met on the way), a thread is a stack of activation records. State that only the statements need
(which instants had which values, which operations were running when an object was retired) is kept in
ordinary fields on which no step depends. `Run` is a sequence of states joined by steps; the main theorems
speak about every run, every schedule and every number of threads. Sequential code is written as classes,
arrays and loops, each method proved against a function or predicate of the old state.

| files | subject |
|---|---|
| `KCas*.dfy` | k-CAS over RDCSS, validated k-CAS, the entry sort |
| `Dcss*.dfy` | DCSS with a shared, reused mutables word |
| `Scx*.dfy` | LLX and SCX |
| `DescriptorSnapshot.dfy`, `DescriptorWords.dfy`, `FieldLoops.dfy`, `Cells.dfy` | copying a descriptor word by word, packed words, the retry loops on them, and the protocols' steps that these amount to |
| `Debra*.dfy`, `TreeEpoch*.dfy`, `Token*.dfy`, `Limbo.dfy` | three epoch schemes and their retired objects |
| `Rlu*.dfy` | read-log-update: quiescence, write-set ring, stealing |
| `Probing.dfy`, `ProbedKeys.dfy`, `HashList.dfy` | the cumulative-squares hash table and the list over it |
| `HazardScan.dfy`, `HazardAnnounce.dfy`, `HazardSafety.dfy`, `Erasing.dfy` | the hazard-pointer scan, scanning announcements that change, and both together |
| `BlockBag.dfy`, `DebraPlus.dfy` | linked blocks; swapping announced objects to the front |
| `TaggedStack.dfy` | the version-tagged stack of blocks |
| `RangeQuery.dfy` | the reader/writer lock and range-query timestamps |
| `TreeStats.dfy`, `TreeInterleaving.dfy` | parallel and sequential tree statistics, and the order of the parallel additions |

## How the main proofs go

* **k-CAS.** Abstract memory reads a raw word as itself, an RDCSS tag as the old value, a k-CAS tag as the
  new value once its operation has succeeded and as the old value before. Every step leaves abstract memory
  alone except the one that takes an operation from undecided to succeeded; there all entries hold its tag,
  and they change together. Late RDCSS helpers may put a tag back after a failure, which changes nothing there.
  A tag that is in a word after the return was placed while the operation was undecided and stayed an RDCSS tag
  until after the decision; so it cannot be at an entry that was held then, and comparing it with the entry whose
  mismatch made the operation fail gives a word that went from another value to the old one in between.
* **DCSS.** A tag is in memory during one interval. The first read of addr1 in that interval that leads to
  the decision is the witness instant. The state that a retry loop returns may belong to a later operation
  of the same descriptor; what such a helper then does is shown to change nothing.
* **SCX.** A node's handles never come back, so an operation that missed one node can never freeze it:
  committing and aborting exclude each other, and allFrozen is set only while all nodes are held.
  Between a valid LLX of a node and freezing it no other operation in progress holds it, so the first update
  CAS finds the value that its caller read.
* **Running alone.** Safety would also hold of a protocol that never gets anything done. So there are theorems about a
  thread that runs alone from an arbitrary reachable state: its call returns, and does what the sequential operation does.
* **DEBRA.** While an operation runs, the epoch is at most one increment past its value *at the instant of
  the announcement* (not past the announced value, which may be older). At the third rotation after a
  retirement the epoch is at least two increments past its value at the retirement.
* **Tree epoch.** An inner node is never ahead of a thread below it, so the root moves only when all leaves
  hold exactly the root's value. If they do, and the threads climb in turn, an inner node holds it exactly when both
  its children are done and one of the threads so far is below it; so when all have climbed the root has moved.
* **Token ring.** Each thread's next turn is a pass number; turns of different threads never coincide.
* **RLU.** A section that has a pointer into a log started before the log was written back, hence before the
  next sync of that writer chose its version; that sync waits for it before it resets the log. For objects read
  directly: once the holder of the lock would wait for the section it does so until the section ends; if it is
  pending instead, the others can end their sections and its sync then goes through.
* **Probing.** Three times the sum of the first 2j squares is 8j³+6j²+j, whose differences are (j−j')·odd,
  so the even probes of one round hit different slots of a power-of-two table.

## Findings

* A failed k-CAS may leave its tag behind for good. A helper that placed an RDCSS tag and read the state as
  undecided (`common/kcas/kcas_reuse_impl.h:300-305`) may write the k-CAS tag after `execute` has returned false.
  It would remove the tag again, unless the owner has by then started its next operation, which makes the helper
  stop at lines 418-420. From every reachable state with two idle threads there is such a run
  (`KCasAnyFailure.FailureMayLeaveTag`), given two untouched words of which the second is not as expected.
  A tag that is left means that some entry's word first differed from its old value and then took it, both while
  the operation was undecided (`KCasLateTag.LateTagHasCause`); conversely, whenever the owner has missed after the first
  entry and the word has then taken the old value, a tag may be left there (`KCasLeavesTag.MissMayLeaveTag`). So none is left, whatever `execute` returns, if old
  values were read before and do not come back (`KCasLateTag.ReadValuesLeaveNoTag`), and none is left by a success in
  any case (`KCasRefinement.SuccessLeavesNoTag`). A tag of a decided operation stays for good exactly if its
  descriptor has moved on and no record has still to release the word (`KCasStuckTag.StaysExactly`); reading the word
  then does not end (`KCasStuckTag.ReaderNeverReturns`). What the word means is unaffected (`KCasRefinement.RunRefines`).
* `rlu_sync_and_writeback` reads the global version, stores it plus one as its own version, and increments
  the global version in three steps (`common/rlu/rlu.cpp:576-577`). A section that starts in between, after another
  writer's increment, may read an object directly that this writer then overwrites without waiting, against
  the comment at lines 889-892. A direct read is in danger exactly if, at that instant, the holder of the object's
  lock has chosen a version that the section has seen, and not published it (`RluOverwrite.EndangeredExactly`).
  Wherever two writers begin a sync and a third thread is idle that can happen (`RluRace.SyncersRace`). Reuse of logs is not affected (`RluTheorems.StolenCopyStays`).
* The value that `dcssPtr` reports with DCSS_FAILED_ADDR1 may be old1 itself: it is what the owner read
  (`common/dcss/dcss_impl.h:32`, `62`), while a helper's later read may have decided. While the operation is undecided and
  another thread may change addr1, by a write or a DCSS, that can still happen exactly if the owner's own read found old1, the guard at line 36
  (`DcssReport.ReportsOld1Exactly`); a caller can never rule it out (`DcssReport.CallerMaySeeOld1`). The value differs from
  old1 if addr1 does not change during the operation (`DcssReport.ReportedDiffers`).
* A `HashList` of initial capacity one is full after one insertion, and searching it for anything else does
  not end (`ProbedKeys.CapacityOneNeverEnds`); `ProbedKeys.SearchEnds` says exactly when a search ends.
* Withdrawing one hazard pointer moves the last one into its place, so a concurrent scan can miss an
  announcement that is held all along. From every state in which some other object than the last is withdrawn
  there is such a run (`HazardAnnounce.MovedCanBeMissed`, `HazardAnnounce.ScanCanMiss`); if only the latest
  announcement is ever withdrawn there is none (`HazardAnnounce.SeenUnlessMoved`).
* With one thread the tree epoch's leaf is its root and nothing is ever reclaimed
  (`TreeEpochRun.OneThreadNeverReclaims`); with any larger number of threads some run reclaims
  (`TreeEpochMany.ReclaimsExactly`).
* Comments that differ from the code, where the model follows the code: the epoch bags free objects at the
  third rotation after a retirement (the comment at `common/recordmgr/reclaimer_debra.h:189` speaks of two
  epochs); DEBRA+ scans from exactly `scanThreshold` blocks on (`common/recordmgr/reclaimer_debraplus.h:207`, "larger
  than" at line 196); the assertion at `common/recordmgr/reclaimer_hazardptr.h:214` allows one announcement less than the
  lists hold, and the model allows all 16.

## Model

| member | source | states |
|---|---|---|
| KCasSafety.ActKeeps | common/kcas/kcas_reuse_impl.h:297-430 | every step of every owner or helper record, whatever the others do, keeps the shared invariant (tags in memory name published operations on that word, decided operations stay decided, an RDCSS tag is placed and lifted at most once) and only extends what other records know |
| KCasSafety.RunKeeps | common/kcas/kcas_reuse_impl.h:297-474 | the invariant holds in every state of every run |
| KCasRefinement.RunRefines | common/kcas/kcas_reuse_impl.h:371-430 | abstract memory changes only at a step that takes an operation from undecided to succeeded; then every entry, entry 0 included, holds its tag and all go from old to new at once |
| KCasRefinement.ExecuteIsAtomic | common/kcas/kcas_reuse_impl.h:450-462 | `execute` returns true iff its operation took effect, exactly once and before it returned; false iff it never did |
| KCasRefinement.FailureHasCause | common/kcas/kcas_reuse_impl.h:320-332 | a plain k-CAS that failed had an earlier instant, while undecided, at which some entry differed from its old value |
| KCasRefinement.SuccessLeavesNoTag | common/kcas/kcas_reuse_impl.h:417-430 | whenever an operation's `execute` has returned true no word holds its tag, late helpers notwithstanding |
| KCasLeavesTag.MissMayLeaveTag | common/kcas/kcas_reuse_impl.h:371-429 | conversely, when the owner is about to fail because of an entry after the first, whose word has since taken the old value, the entries before it held, some continuation has `execute` return false and leaves the tag there for good |
| KCasAnyFailure.FailureMayLeaveTag | common/kcas/kcas_reuse_impl.h:297-462 | from every reachable state with two idle threads, a k-CAS on two untouched words, the second not as expected, may fail and leave its tag there for good |
| KCasAnyFailure.FivesMayLeaveTag | common/kcas/kcas_reuse_impl.h:297-462 | an instance from the start |
| KCasLateTag.LateTagHasCause | common/kcas/kcas_reuse_impl.h:375-429 | if `execute` has returned and a word holds its operation's tag, some entry's word held another value than its old one and later its old one, both while the operation was undecided |
| KCasLateTag.ReadValuesLeaveNoTag | common/kcas/kcas_reuse_impl.h:416-429 | so no tag is left after either result, if old values were read before and values do not return to these words |
| KCasLateTag.EntersByPlacing | common/kcas/kcas_reuse_impl.h:297-345 | a k-CAS tag enters a word only where an RDCSS tag was placed over the old value while the operation was undecided, with all earlier entries held |
| KCasStuckTag.StaysExactly | common/kcas/kcas_reuse_impl.h:362-429 | a decided operation's tag stays in a word, in every continuation, iff its descriptor has moved on and no record has still to release that word (some thread being free to read it) |
| KCasStuckTag.ReaderNeverReturns | common/kcas/kcas_reuse_impl.h:464-474 | while it stays, a thread that reads that word never gets an answer |
| KCasValidation.ValidationInstant | common/kcas/kcas_validate.h:364-519 | a successful validated k-CAS has one instant at which all entries are locked by it, it is undecided, and every visited word that is not an entry holds its visited, unmarked value (version words never returning to a value that is gone) |
| KCasValidation.FailureCause | common/kcas/kcas_validate.h:364-387 | a k-CAS, validated or not, that failed had an instant, while undecided, at which some entry differed from its old value or, if it validates, a visited word held another value, an RDCSS tag or another operation's tag, or its visited value was marked |
| KCasValidation.PathVisited | common/kcas/kcas_validate.h:402-411 | every item of a published path was the word's value, with no tag in it, at some earlier instant |
| KCasReads.PathIsVisits | common/kcas/kcas_validate.h:596-607 | a published path is exactly what the thread has visited since it last called start(), in order, with the values it was told |
| KCasReads.ReadAnswers | common/kcas/kcas_reuse_impl.h:465-473 | readPtr answers with what the word means at the instant of its last access |
| KCasReads.OnlyReadsAnswer | common/kcas/kcas_reuse_impl.h:465-473 | and there are no other answers |
| KCasSolo.SoloExecute | common/kcas/kcas_validate.h:457-563 | from every reachable state, execute or validateAndExecute run alone on words without tags returns true iff all entries match and, if it validates, every visited word is an entry or holds its visited, unmarked value; then exactly the entries' words change, otherwise none |
| KCasHelps.TagIsCurrent | common/kcas/kcas_reuse_impl.h:294-340 | the descriptor of an RDCSS tag that is in memory is current |
| KCasHelps.SoloLifts | common/kcas/kcas_reuse_impl.h:294-340 | so whoever meets an RDCSS tag can, alone and from any reachable state, lift it, changing no other word |
| KCasHelps.SoloReleases | common/kcas/kcas_reuse_impl.h:371-430 | and whoever meets the tag of another, decided k-CAS whose descriptor has not moved on can release the word |
| KCasSort.KcasdescSort | common/kcas/kcas_reuse_impl.h:433-448 | the in-place sort leaves the same entries in address order, although `swapped` is never reset |
| KCasSort.SortedStrict | common/kcas/kcas_reuse_impl.h:433-448 | entries with distinct addresses end up in strictly increasing order |
| DcssProof.RunKeeps | common/dcss/dcss_impl.h:27-177 | the DCSS invariant holds in every state of every run |
| DcssHistory.RunRefines | common/dcss/dcss_impl.h:27-177 | every step is one atomic DCSS at its decision, a plain write to a word, or leaves abstract memory alone |
| DcssHistory.DecisionHasWitness | common/dcss/dcss_impl.h:27-64 | a decided operation has an instant, after its tag was installed, at which addr1 equalled old1 iff it succeeded; from there to the decision addr2 holds its tag |
| DcssHistory.TagOnce | common/dcss/dcss_impl.h:125-159 | the instants at which an operation's tag is in memory form one interval, all of it at addr2 |
| DcssHistory.StaleHelperInert | common/descriptors/descriptors_impl2.h:79-104 | a helper whose descriptor has moved on changes nothing, even when the retry loop handed it a later operation's state |
| DcssHistory.ReturnsTruth | common/dcss/dcss_impl.h:125-159 | `dcssPtr` returns success iff its operation succeeded, with its tag gone; a mismatch at addr2 means the tag was never in memory |
| DcssHistory.ReportedFound | common/dcss/dcss_impl.h:143-158 | the value reported with DCSS_FAILED_ADDR2 was in addr2 at an instant between publication and return |
| DcssHistory.ReadAnswers | common/dcss/dcss_impl.h:161-177 | dcssRead answers with what the word means at the instant of its last access |
| DcssHistory.OnlyReadsAnswer | common/dcss/dcss_impl.h:161-177 | and there are no other answers |
| DcssSolo.SoloCall | common/dcss/dcss_impl.h:125-159 | from every reachable state, whatever others have left unfinished, dcssPtr run alone returns, with the answer and the memory that a sequential DCSS gives from the instant at which addr2 holds no tag |
| DcssSolo.SoloRead | common/dcss/dcss_impl.h:161-177 | so does dcssRead, whose answer is then in the word |
| DcssReport.ReportedWasRead | common/dcss/dcss_impl.h:28-64 | the value reported with DCSS_FAILED_ADDR1 was in addr1 after the installation and before the return, and so was a value other than old1 |
| DcssReport.ReportedDiffers | common/dcss/dcss_impl.h:28-64 | it differs from old1 if addr1 does not change in between |
| DcssReport.ReportsOld1Exactly | common/dcss/dcss_impl.h:31-64 | while the operation is undecided and another thread may change addr1 (a plain word, or one that a DCSS which compares a third word can change), some continuation fails and reports old1 iff the owner's own read of addr1 found old1 |
| DcssReport.CallerMaySeeOld1 | common/dcss/dcss_impl.h:125-159 | from every reachable state with two idle threads, the words as expected and addr1 changeable in the same sense, some run of dcssPtr fails because of addr1 and reports old1 |
| DcssReport.FailureMayReportOld1 | common/dcss/dcss_impl.h:31-64 | an instance of it |
| ScxHistory.RunKeeps | common/scx_provider.h:94-223 | the LLX/SCX invariant holds in every state of every run |
| ScxHistory.AbortedOrFrozen | common/scx_provider.h:94-131 | once an operation is aborted no helper ever sets its allFrozen bit or commits it, and conversely |
| ScxHistory.FrozenTogether | common/scx_provider.h:94-118 | when allFrozen is first set all the operation's nodes hold its tag at that instant |
| ScxHistory.AllHeldWhileInProgress | common/scx_provider.h:117-130 | they go on holding it until the operation is decided |
| ScxHistory.HandleNeverReturns | common/scx_provider.h:94-100 | a handle that left a node's scxPtr never comes back |
| ScxHistory.UnchangedSinceSeen | common/scx_provider.h:167-209 | a node that an operation froze had kept the handle which LLX returned for it until then |
| ScxHistory.FinalizedForever | common/scx_provider.h:119-123 | a marked node stays marked and stays frozen for the operation that finalized it |
| ScxHistory.ExecuteReportsTruth | common/scx_provider.h:211-223 | `scxExecute` returns true iff the operation committed, and then its update CAS was made at a step where all nodes were held and all finalized nodes marked; an aborted one has a node it never froze |
| ScxUpdate.OnlyUpdatesWrite | common/scx_provider.h:118-128 | no step but a successful update CAS of an operation with allFrozen set and its finalized nodes marked changes a field |
| ScxUpdate.WritesInProgress | common/scx_provider.h:118-128 | if callers keep the LLX/SCX contract, a successful update CAS is made while the operation is in progress and holds all its nodes; late helpers' fail |
| ScxUpdate.CommittedWroteOnce | common/scx_provider.h:94-131 | under the same contract a committed operation took its field from the old to the new value exactly once, at such a step |
| ScxUpdate.AbortedNeverWrote | common/scx_provider.h:94-131 | an aborted operation never changed its field |
| ScxUpdate.LlxCopiesSnapshot | common/scx_provider.h:167-185 | if LLX returns a handle, every field of the node had, at every instant between the checks of state and mark and its last access, the same value: what it copied is a snapshot |
| ScxProof.ReplacedMeansDecided | common/scx_provider.h:167-189 | a tag that another one replaced belongs to a decided operation that does not finalize that node |
| ScxLlx.GotHandle | common/scx_provider.h:167-189 | an LLX that returns a handle read it at an instant of the call, and the node held it from then to the last access; its operation is decided and does not finalize the node, and it is the handle that the next SCX expects |
| ScxLlx.OnlyLlxLinks | common/scx_provider.h:167-189 | nothing else gives a thread a handle |
| ScxLlx.NothingCause | common/scx_provider.h:167-189 | an LLX that returns none found, at its last access, the operation whose handle it read in progress, the node marked, or the handle replaced; it answers FINALIZED iff the node was marked when it began |
| ScxSolo.SoloCommits | common/scx_provider.h:94-223 | from every reachable state, a thread that runs alone commits an SCX on any distinct nodes that are unmarked and not held by an operation in progress: exactly these are frozen, those to be finalized marked, and the field is changed iff it holds the old value |
| ScxSolo.SoloHelps | common/scx_provider.h:94-137 | from every reachable state, an LLX that runs alone on a node held by an operation in progress completes that operation and returns |
| DescriptorSnapshot.SnapshotIsAtomic | common/descriptors/descriptors_impl2.h:127-148 | a field-by-field copy that passes the final check equals the fields published under the tag, and throughout the copy the descriptor held exactly these under that sequence number |
| DescriptorSnapshot.PassesIffCurrent | common/descriptors/descriptors_impl2.h:127-148 | a copy passes iff the descriptor had the tag's sequence number at every instant from before the first word was read to the check |
| DescriptorWords.TagRoundTrip | common/descriptors/descriptors_impl2.h:37-47 | a tag gives back thread, sequence number and user bits |
| DescriptorWords.TagRoundTrip1 | common/descriptors/descriptors_impl.h:49-61 | the same for the SCX layout |
| DescriptorWords.TagsDiffer | common/descriptors/descriptors_impl2.h:37-47 | two tags are equal iff thread, sequence number and user bits are |
| DescriptorWords.PutFieldOther | common/descriptors/descriptors_impl2.h:54-77 | storing a subfield leaves every other one as it was |
| DescriptorWords.ParityToggles | common/descriptors/descriptors_impl2.h:138-148 | DESC_NEW and DESC_INITIALIZED each toggle the parity of the sequence number |
| FieldLoops.CasIsAtomic | common/kcas/kcas_reuse_impl.h:70-89 | the CAS loop, as 64-bit arithmetic, is one atomic CAS of the subfield at its last access, whatever other threads do to the word meanwhile |
| FieldLoops.WriteIsAtomic | common/descriptors/descriptors_impl.h:68-76 | the write loop is one atomic write of the subfield, conditional on the sequence number, at its last access |
| FieldLoops.WriteBitIsAtomic | common/descriptors/descriptors_impl.h:77-84 | so is the loop that sets a bit, for a subfield of one bit |
| FieldLoops.ValCasIsAtomic | common/descriptors/descriptors_impl2.h:79-104 | the value-returning CAS loop gives up at its first access if the sequence number has moved on, and otherwise is one atomic operation at its last access, which may return a later operation's field |
| Cells.DcssCasIsLoop | common/dcss/dcss_impl.h:42-64 | if the packed word shows the descriptor of `Dcss` (sequence number and state), the value-returning loop on it does what the two steps of `Dcss` do, at its first and its last access: the word shows the descriptor again and dcssHelp goes on with the same answer |
| Cells.DcssPublishIsMacros | common/dcss/dcss_impl.h:127-135 | publishing is DESC_NEW and DESC_INITIALIZED on that word, short of wrap-around |
| Cells.KCasResolveIsLoop | common/kcas/kcas_reuse_impl.h:415 | likewise the deciding step of `KCas` and the CAS loop, which succeeds iff the operation is open |
| Cells.KCasPublishIsMacro | common/kcas/kcas_reuse_impl.h:452-498 | start() is DESC_NEW and publishing is DESC_INITIALIZED on that word |
| Cells.ScxStateIsLoop | common/scx_provider.h:111-129 | likewise setting the state in `Scx` and the write loop |
| Cells.ScxFrozenIsLoop | common/scx_provider.h:117 | and setting allFrozen and the loop that sets a bit |
| Cells.ScxPublishIsMacros | common/scx_provider.h:211-223 | publishing is DESC1_INITIALIZED, and the step that ends scxExecute is DESC1_NEW |
| DebraProof.RunKeeps | common/recordmgr/reclaimer_debra.h:272-364 | the epoch invariant holds in every state of every run |
| DebraProof.NothingFreedTooEarly | common/recordmgr/reclaimer_debra.h:190-245 | an object is in its epoch bag as long as any operation that ran at its retirement still runs, even across stalls between reading and announcing the epoch |
| DebraProof.RotationIsSafe | common/recordmgr/reclaimer_debra.h:190-245 | every object in the bag that a rotation frees has only ended holders |
| DebraProof.EpochLag | common/recordmgr/reclaimer_debra.h:325-345 | while an operation runs the epoch is at most one increment past its value at the announcement |
| DebraProof.CheckedIsIndex | common/recordmgr/reclaimer_debra.h:334-340 | `checked` is a valid thread index whenever it is used |
| DebraReclaims.SoloReclaims | common/recordmgr/reclaimer_debra.h:190-356 | from every reachable state in which the other threads are quiescent, a thread between operations can alone bring all objects of its current bag to the pool, if they fill whole blocks, by rotations that move exactly the full blocks |
| TreeEpoch.RoundUpPow2 | common/recordmgr/reclaimer_ebr_tree.h:42-52 | the smallest power of two not below the argument |
| TreeEpoch.PropagateQ | common/recordmgr/reclaimer_ebr_tree.h:89-106 | marks exactly the ancestors whose subtrees have become quiescent, and keeps soundness |
| TreeEpoch.NewTree | common/recordmgr/reclaimer_ebr_tree.h:109-129 | after construction a node is quiescent iff no thread is below it, the root holds the first epoch, all others zero |
| TreeEpochRun.RunKeeps | common/recordmgr/reclaimer_ebr_tree.h:137-204 | the tree invariant holds in every state of every run of at least two threads |
| TreeEpochRun.EpochMovesTogether | common/recordmgr/reclaimer_ebr_tree.h:160-180 | the root moves by one increment, and only when every thread's leaf equals it |
| TreeEpochRun.InnerNeverAhead | common/recordmgr/reclaimer_ebr_tree.h:182-195 | no inner node is ahead of a thread below it; quiescent nodes stay exactly those without threads |
| TreeEpochRun.NothingFreedTooEarly | common/recordmgr/reclaimer_ebr_tree.h:279-358 | an object is in its epoch bag as long as any operation that ran at its retirement still runs |
| TreeEpochRun.RotationIsSafe | common/recordmgr/reclaimer_ebr_tree.h:279-291 | every object in the bag that a rotation frees has only ended holders |
| TreeEpochRun.OneThreadNeverReclaims | common/recordmgr/reclaimer_ebr_tree.h:137-142 | with one thread the epoch never moves and every object stays in its bag |
| TreeEpochMany.ReclaimsExactly | common/recordmgr/reclaimer_ebr_tree.h:137-204 | some run, whose rotations move full blocks only, reclaims an object iff there are at least two threads |
| TreeEpochMany.ManyReclaim | common/recordmgr/reclaimer_ebr_tree.h:279-358 | with two or more, any objects that fill whole blocks, retired at the start, can all be in the pool three epochs later, by rotations that move exactly the full blocks |
| TreeEpochClimb.RoundEnds | common/recordmgr/reclaimer_ebr_tree.h:137-204 | when all leaves held the epoch and every thread has climbed once, in turn, the root has moved |
| TokenEpoch.RunKeeps | common/recordmgr/reclaimer_ebr_token.h:154-207 | the ring invariant holds in every state of every run |
| TokenEpoch.OneToken | common/recordmgr/reclaimer_ebr_token.h:163-170 | at most one thread has the token, and none while it is being passed |
| TokenEpoch.CountsInRingOrder | common/recordmgr/reclaimer_ebr_token.h:163-170 | visit counts differ by at most one, earlier threads being ahead |
| TokenEpoch.NothingFreedTooEarly | common/recordmgr/reclaimer_ebr_token.h:118-130 | an object stays in its thread's bags as long as any operation that ran at its retirement has not ended |
| TokenEpoch.RotationIsSafe | common/recordmgr/reclaimer_ebr_token.h:118-130 | every object in `last` when it is emptied has only ended holders |
| TokenReclaims.RingReclaims | common/recordmgr/reclaimer_ebr_token.h:118-207 | from every reachable state in which all threads are between operations, all objects of a thread's current bag can get to the pool, if they fill whole blocks, by rotations that move exactly the full blocks |
| RluTheorems.RunKeeps | common/rlu/rlu.cpp:438-630 | the RLU invariant holds in every state of every run |
| RluTheorems.StolenCopyStays | common/rlu/rlu.cpp:859-904 | the copy that a section stole stays unchanged in a committed log that is not reset, until the section ends |
| RluTheorems.ResetUnseen | common/rlu/rlu.cpp:371-391 | a log is reset only when no running section has read a pointer into it |
| RluTheorems.OwnLogFresh | common/rlu/rlu.cpp:609-630 | the ring never overflows; a section that has not written yet finds its log empty, in a slot of its own |
| RluValue.OnlyCommitsChange | common/rlu/rlu.cpp:323-391 | the value of an object (its copy, once the log that it is locked into is committed, and otherwise what the object holds) changes only at a commit, which gives exactly the objects locked into that log the values of their copies; writing back and unlocking change no value |
| RluValue.LockingCopies | common/rlu/rlu.cpp:906-983 | locking an object copies its value |
| RluValue.OnlyHolderWrites | common/rlu/rlu.cpp:906-983 | while the object stays locked the copy changes only when the holder, in its section, writes it |
| RluValue.WriteArrives | common/rlu/rlu.cpp:906-983 | and then it is what was written |
| RluValue.StolenIsValue | common/rlu/rlu.cpp:859-904 | what a section steals is the copy in a committed log, and so the object's value as long as the object is locked into that log |
| RluDirect.DirectReadKept | common/rlu/rlu.cpp:859-904 | an object that a section obtained itself is written back by no other thread until the section ends, unless the lock's holder was pending (version chosen, seen by the section, not published) at that instant |
| RluDirect.OverwrittenWasPending | common/rlu/rlu.cpp:323-369 | whatever a running section obtained itself and another thread writes back was taken from a pending holder in that section |
| RluDirect.PendingNeverWaits | common/rlu/rlu.cpp:510-547 | a pending holder's sync keeps its version, and each of its checks of that section passes |
| RluOverwrite.EndangeredExactly | common/rlu/rlu.cpp:482-602 | some continuation has another thread write back an object that a section obtained itself, before the section ends, iff the lock's holder was pending |
| RluSafety.WaitOver | common/rlu/rlu.cpp:482-547 | when the wait is over no section is left that saw a log written back by the previous sync |
| RluRace.SyncersRace | common/rlu/rlu.cpp:576-577 | from every reachable state in which two writers begin a sync and a third thread is idle, some run has that thread obtain an object itself from a pending holder |
| RluRace.WriterDoesNotWait | common/rlu/rlu.cpp:576-577 | and some run goes on to where the object is being written back while the section still runs |
| RluRace.SyncersMeet | common/rlu/rlu.cpp:609-630 | such a state is reachable |
| Probing.SumEven | common/rq/hashlist.h:112-123 | closed form of the cumulative squares at even steps |
| Probing.EvenProbesDiffer | common/rq/hashlist.h:112-123 | the even probes of one round go to different slots |
| Probing.ProbesCover | common/rq/hashlist.h:112-123 | from any start the first 2·capacity probes visit every slot of a power-of-two table |
| ProbedKeys.StopIsExact | common/rq/hashlist.h:112-123 | where a search stops tells exactly whether the element is present |
| ProbedKeys.SearchEnds | common/rq/hashlist.h:112-123 | a search ends iff the element is present or some slot is empty |
| ProbedKeys.CapacityOneNeverEnds | common/rq/hashlist.h:142-147 | in a table of capacity one a search for a second element never ends |
| ProbedKeys.PutKeeps | common/rq/hashlist.h:161-173 | putting a key where its search stopped keeps every other key findable |
| HashLists.HashTable.FindIx | common/rq/hashlist.h:112-123 | for every capacity: if some slot is empty or the element is present, ends within 2·capacity probes at the element's slot, or at an empty one iff it is absent |
| HashLists.HashTable.TryExpand | common/rq/hashlist.h:125-139 | doubles the table iff it is half full; membership, nodes and size stay, and reinserting never expands again |
| HashLists.HashTable.InsertNode | common/rq/hashlist.h:161-173 | adds exactly the node's element; the load stays at most one half |
| HashLists.HashTable.Clear | common/rq/hashlist.h:175-199 | both strategies leave the whole table empty |
| HashLists.HashList.Contains | common/rq/hashlist.h:260-262 | membership in the represented set |
| HashLists.HashList.Insert | common/rq/hashlist.h:264-280 | the represented set gains exactly the element; no node is lost |
| HashLists.HashList.Clear | common/rq/hashlist.h:231-246 | the represented set becomes empty; all nodes, used and free, are kept |
| HazardScan.HashsetNew.constructor | common/recordmgr/hashtable.h:190-200 | an empty table at least twice as large as the number of elements asked for |
| HazardScan.HashsetNew.Clear | common/recordmgr/hashtable.h:204-209 | the table is empty, also when `__size` says that there is nothing to do |
| HazardScan.HashsetNew.GetIndex | common/recordmgr/hashtable.h:170-182 | linear probing terminates while a slot is empty, at the key or at an empty slot iff it is absent |
| HazardScan.HashsetNew.Contains | common/recordmgr/hashtable.h:210-215 | exact membership |
| HazardScan.HashsetNew.Insert | common/recordmgr/hashtable.h:216-223 | adds exactly the key; the size counts distinct keys |
| HazardScan.ArrayList.Erase | common/recordmgr/arraylist.h:111-114 | the last object takes the erased one's place |
| HazardScan.HashAnnouncements | common/recordmgr/reclaimer_hazardptr.h:209-221 | the table holds exactly what some thread announced, at most half full |
| HazardScan.HazardPointers.Scan | common/recordmgr/reclaimer_hazardptr.h:222-232 | the erase-while-iterating loop terminates, frees exactly the objects not in the table and keeps the rest |
| HazardScan.HazardPointers.Retire | common/recordmgr/reclaimer_hazardptr.h:143-236 | retired objects are kept or freed, none lost; when the list fills up exactly the unannounced ones are freed and at most 16 per thread stay |
| HazardAnnounce.KeptPlaceIsSeen | common/recordmgr/reclaimer_hazardptr.h:212-220 | an announcement that keeps its place during a scan is seen |
| HazardAnnounce.SeenUnlessMoved | common/recordmgr/arraylist.h:51-56 | if only the latest announcement is ever withdrawn, a scan sees everything announced all along |
| HazardAnnounce.MovedCanBeMissed | common/recordmgr/arraylist.h:51-56 | conversely: from every state in which another than the last object is withdrawn, some run with that withdrawal alone misses the last object, although it is announced all along |
| HazardAnnounce.ScanCanMiss | common/recordmgr/arraylist.h:51-56 | an instance of it |
| HazardSafety.HeldIsCollected | common/recordmgr/reclaimer_hazardptr.h:209-221 | what a thread announces all along, withdrawing at most its latest announcement, is among the collected announcements |
| HazardSafety.RetireAmong | common/recordmgr/reclaimer_hazardptr.h:143-236 | hence it is not freed, while the announcements change during the scan |
| HazardSafety.RotateAmong | common/recordmgr/reclaimer_debraplus.h:206-243 | nor does it leave a bag that DEBRA+ scans; from the threshold on, the blocks that stay hold collected objects only, the last aside |
| BlockBags.AddedKeeps | common/recordmgr/blockbag.h:366-382 | adding keeps the shape and adds exactly one occurrence |
| BlockBags.RemovedKeeps | common/recordmgr/blockbag.h:453-475 | removing keeps the shape and takes exactly the returned object |
| BlockBags.ErasedKeeps | common/recordmgr/blockbag.h:415-450 | erasing any item of any block keeps the shape and takes exactly that item |
| BlockBags.BlockBag.Add | common/recordmgr/blockbag.h:366-382 | the linked blocks hold the old contents and the object; head not full, others full, tail last, `sizeInBlocks` exact |
| BlockBags.BlockBag.Remove | common/recordmgr/blockbag.h:453-475 | returns the last object, dropping an empty head first |
| BlockBags.BlockBag.Erase | common/recordmgr/blockbag.h:415-450 | removes the item, filling the gap from the head, and tells whether it did |
| BlockBags.BlockBag.RemoveFullBlock | common/recordmgr/blockbag.h:542-565 | unlinks the second block iff there are at least two full ones |
| BlockBags.BlockBag.AddFullBlock | common/recordmgr/blockbag.h:566-579 | appends a full block as the new tail |
| BlockBags.BlockBag.AppendMoveFullBlocks | common/recordmgr/blockbag.h:621-646 | moves exactly the blocks after any given predecessor; both bags keep their shape |
| BlockBags.BlockBag.AppendMoveAll | common/recordmgr/blockbag.h:650-659 | every occurrence moves; the other bag is empty |
| BlockBags.BlockBag.ComputeSizeInBlocks | common/recordmgr/blockbag.h:303-311 | the number of linked blocks |
| DebraPlus.NextIsNext | common/recordmgr/blockbag.h:191-227 | the iterator's increment goes to the immediate successor in iteration order |
| DebraPlus.SwapToFront | common/recordmgr/reclaimer_debraplus.h:228-237 | the announced objects come before all others in iteration order, and the bag has the same objects |
| DebraPlus.RotateScan | common/recordmgr/reclaimer_debraplus.h:206-243 | nothing that some thread announces leaves the bag and nothing is lost between bag and pool; from the threshold on every block that stays holds announced objects only, the last aside, so with distinct objects at most two more full blocks stay than the announcements fill; below it nothing moves |
| DebraPlus.FewBlocks | common/recordmgr/reclaimer_debraplus.h:225-243 | the bound on the blocks that stay |
| TaggedStack.RunKeeps | common/recordmgr/lockfreeblockbag.h:57-83 | the stack invariant holds in every state of every run |
| TaggedStack.PopIsCurrent | common/recordmgr/lockfreeblockbag.h:57-72 | a successful CAS implies that the head and the `next` that were read are current, despite pop and push of the same block |
| TaggedStack.StepLinearizes | common/recordmgr/lockfreeblockbag.h:57-83 | every operation takes effect as one push, pop or empty answer on a sequential stack |
| TaggedStack.NoBlockLost | common/recordmgr/lockfreeblockbag.h:57-83 | each block is in the stack once or owned by exactly one thread |
| RangeQuery.RunKeeps | common/rq/rq_rwlock.h:188-270 | lock accounting and timestamp order hold in every state of every run |
| RangeQuery.LockWordCounts | common/rwlock.h:106-176 | the lock word is 4·readers + 2·upgrader + writer |
| RangeQuery.WritersExclude | common/rwlock.h:129-176 | a writer, upgraded or not, excludes readers, upgraders and other writers |
| RangeQuery.TimestampsTellOrder | common/rq/rq_rwlock.h:203-270 | an update's recorded timestamp is below a query's rq_lin_time iff its write came before the query's increment |
| TreeStatistics.LevelAt | common/tree_stats.h:104-192 | cutting a tree at one level loses and repeats no node, depth by depth |
| TreeStatistics.LevelSum | common/tree_stats.h:104-192 | the key sum splits in the same way |
| TreeStatistics.Cut | common/tree_stats.h:104-160 | the search's range is exactly one full level, with at least `minNodes` entries unless it is the root |
| TreeStatistics.TreeStats.ComputeStats | common/tree_stats.h:48-71 | adds to each counter the tree's nodes at each depth, down to `maxDepth` |
| TreeStatistics.TreeStats.AddSubtrees | common/tree_stats.h:165-181 | the subtrees' tables, added in any order, shift and sum up |
| TreeStatistics.LevelCounts | common/tree_stats.h:48-71 | on each level the counters are: the numbers of leaves and of internal nodes, the sums of numKeys over the leaves, the internal nodes and all, and the sum of bytes |
| TreeStatistics.KeySumLevels | common/tree_stats.h:48-71 | the key sum is the sum of keySum over all levels |
| TreeStatistics.ChildrenAre | common/tree_stats.h:48-71 | a level's entries are the children of the internal nodes of the level above |
| TreeStatistics.TreeStats.Sequential | common/tree_stats.h:74-92 | at every depth each counter is what it is on that level of the tree, said of the level's nodes and their own fields, and so is the key sum |
| TreeStatistics.TreeStats.Parallel | common/tree_stats.h:93-192 | so are those of the parallel construction, for every minNodes of at least one |
| TreeInterleaving.AnyInterleaving | common/tree_stats.h:165-181 | whatever the interleaving of the subtrees' atomic additions, with the traversal above the cut they make up every counter of the whole tree |
| TreeInterleaving.AnyInterleavingSum | common/tree_stats.h:165-181 | and its key sum |

## Left out

- Weak memory: all models are sequentially consistent; lock-freedom, fairness and termination under contention are not claimed, only that threads which run alone finish (`DcssSolo`, `ScxSolo`, `KCasSolo`).
- KCasRefinement.FailureHasCause: is about plain k-CAS; `KCasValidation.FailureCause` also covers validated ones.
- KCasSolo.SoloExecute: asks that the entries' words hold no tags; a tag that is stuck there would not let it end. `KCasHelps` says which tags can be lifted.
- KCasRefinement.SuccessLeavesNoTag: speaks of operations that returned true; failures are the subject of `KCasLateTag` and `KCasStuckTag`.
- KCasStuckTag.StaysExactly: asks for a thread that is idle or about to read the word; that a busy thread gets there is lock-freedom.
- k-CAS descriptors stay readable in the model after reuse for the statements only; helpers read them through the sequence check.
- DcssReport.ReportsOld1Exactly: asks, if addr1 is no plain word, for a third word that holds a value, which another DCSS can compare.
- DcssHistory.ReturnsTruth: leaves the value reported with DCSS_FAILED_ADDR1 to `DcssReport`, and that with DCSS_FAILED_ADDR2 to `DcssHistory.ReportedFound`.
- Descriptor copies are single steps in `KCas`, `Dcss` and `Scx`; `DescriptorSnapshot` says what such a step stands for, and is not linked to them formally. The mutables words are (`Cells`).
- The caller's own `validate()` (`common/kcas/kcas_validate.h:389-400`), which reads the visited words one by one.
- Values are logical: the shift by KCAS_LEFTSHIFT, and the capacities MAX_K and MAX_VALID_SIZE, are not modelled.
- Sequence numbers are unbounded in the protocols; `DescriptorWords` shows their 48 bits and where they end.
- ScxUpdate.CommittedWroteOnce: assumes the caller's part (`ScxUpdate.Discipline`): operations on a field freeze the node it belongs to, the old value was read during that node's LLX, and values that left a field do not come back.
- ScxUpdate.LlxCopiesSnapshot: says what may be read between the two accesses; the copying itself is not a step of the model.
- Hardware transactional paths, dcss_plus and rq_dcssp, and the unguarded `helpProcess`.
- Epoch schemes are modelled for one record type; bags of the others are rotated in the same way. Any part of a bag may stay behind at a rotation, which covers blocks that are not full.
- deinitThread and debugGCSingleThreaded, whose callers must be quiescent.
- RLU aborts, the is_steal and is_check_locks shortcuts, writer locks, allocation and rlu_free; locking an object and copying it into the log are one step.
- RluDirect.DirectReadKept: has the exception described under Findings, which `RluOverwrite.EndangeredExactly` shows to be exact.
- HashLists.HashTable.constructor: asks for a capacity of at least two, for the reason given under Findings; so does `HashList`'s.
- HashLists and HazardScan treat the hash as an arbitrary function; masks with a power of two minus one are remainders; 32-bit overflow of indices is not modelled.
- HazardScan.HazardPointers.Retire: takes the announcements as the scan collected them; `HazardSafety` joins it with what a concurrent scan collects.
- BlockBags.BlockBag.Erase: does not say where in iteration order the moved object ends up, beyond the block and index. The block pool is fresh allocation, and objects are integers.
- The variants of blockbag add and remove that exchange blocks with a shared bag; blocks with `nextCount`.
- DebraPlus.RotateScan: takes the bag that the rotated index selects, and the announcements as collected. The neutralizing of DEBRA+ is left out.
- In `RangeQuery` the memory that updates write is not modelled, only the instants of the writes; the traversal needs data-structure callbacks.
- TreeStatistics.TreeStats.Parallel: adds whole subtrees in any order; `TreeInterleaving` has the interleaved additions.
- Trees higher than MAX_HEIGHT, for which the original writes outside its arrays.
- reclaimer_ebr_tree_q.h, lockfreeblockstack.h, the fixed-size `hashset`, rq_snapcollector.h, statistics, allocators and the benchmark driver.
