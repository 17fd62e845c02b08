# Whim: verified models

This project models the parts of the Whim toolchain whose correctness is hardest to see, and proves what they promise. Every file is Dafny 4.11; `dafny verify dfyconfig.toml` checks all of them. Nothing here runs Whim.

What is proved, by area:

- **Bytecode control flow** (`Digraph`, `ReversePostorder`, `DominatorTree`, `ImmediateDominators`, `Bytecode`, `Control`, `Cfg`). A chunk is split into blocks, a depth-first search with an explicit stack gives a reverse postorder, and immediate dominators are iterated to a fixpoint. The iteration stops, and its answers are exactly reachability and dominance over all runs of control from the entry. `Control` says where each outcome of an instruction sends control, and the successor lists are exactly that.
- **Compaction** (`Rewrite`, `Compaction`). Deleting instructions and rebasing every offset, switch table and catch range gives code that runs in lockstep with the original, for any meaning of the opcodes and of catch clauses, with deleted slots falling through. A table used by several switches is rebased once for each of them. That is right exactly if its users agree on every offset (`Compaction.TablesAgree`), which the chunk and the mask decide. A kept foreach-next must also keep the slot it skips over (`Compaction.ForeachIntact`), as crates/optimizer/src/passes/prune_unreachable.rs:50-60 sees to. Lockstep holds exactly if both do (`Compaction.LockstepIff`); otherwise some machine sees the difference in one step. Of the passes that compact, only move coalescing (crates/optimizer/src/passes/move_coalescing.rs:53) asks `has_shared_switch_table` first.
- **Install transaction** (`Transaction`). Marker, backups, installation and rollback over five artifacts, with a failure or a crash possible at every file-system operation. Over any run of commands the artifacts are one whole set or the other, or the old set is recoverable.
- **Event loop** (`EventLoop`, `EventLoopInvariants`, `EventLoopTimers`, `EventLoopAccounting`, `EventLoopPolling`, `EventLoopEffects`, `Scheduler`, `PendingErrors`). One function per operation on a value, whole runs as lists of operations, and a class whose methods are proved against the functions. A poll wakes exactly the ready waiters and the tasks with a timer due, in order. A queued activation waits unchanged until it is handed out or its task is cancelled. No stale timer fires, deadlock detection is sound, and the counters mean what they say.
- **Lockfile** (`Lockfile`, `DependencyChain`). The reference check accepts exactly the sound lockfiles, and the `why` search finds shortest chains.
- **Document printer** (`Documents`, `Layout`, `PrintMachine`, `PrintedLayout`, `PrintedInFull`, `PrintedInk`, `FitMeasure`, `Printer`). `Layout` says what printing a document means, blank lines included. Whatever the fit measure answers, the stack machine writes exactly that for every document that ends in a hard line, where neither the document nor a line suffix ends in a blank-line check, or that has no line suffix. `PrintedInFull.LossIff` says exactly when a run leaves a suffix unprinted. Printing changes only white space, and moves only line suffixes. `FitMeasure` says when the fit measure is asked and what each answer does.
- **Lint scopes** (`LintScopes`, `LintLookup`, `LintLevels`). Looking up a lint by binary search and parent links agrees with searching all scopes, and gives the level the attributes around the span put in force; what is forbidden stays forbidden.
- **Line index** (`Utf8`, `LineIndex`). Byte offsets and UTF-16 positions, as in "Position" of the Language Server Protocol 3.17, convert back and forth.
- **Manifest hash** (`ManifestHash`). The manifest can be read back from the byte stream that is hashed, so that stream determines it.

Five promises hold only under a condition. Each has a lemma with an input that breaks it and a lemma with the exact condition:

- compaction with shared switch tables: `Compaction.SharedTableBreaks`, `Compaction.CompactionIsRightIff`;
- compaction around a foreach-next: `Compaction.SkippedSlotBreaks`, `Compaction.LockstepIff`;
- timer entries that compaction may drop: `EventLoopAccounting.RearmingRevives`, `EventLoopAccounting.RevivalCondition`;
- line suffixes at the end of a document: `PrintedInFull.SuffixCanBeLost`, `PrintedInFull.LossIff`;
- lint lookups with an empty span between adjacent scopes: `LintLookup.EmptySpanCanDisagree`, `LintLookup.SearchAgreesIff`.

## Model

| member | source | states |
|---|---|---|
| ReversePostorder.Compute | crates/optimizer/src/cfg.rs:265-284 | the order lists exactly the vertices reachable from the entry, each once, entry first, and every other vertex after one of its predecessors |
| DominatorTree.Intersect | crates/optimizer/src/cfg.rs:342-357 | stops, and returns the nearest common ancestor of the two vertices in the forest of current parents |
| DominatorTree.NearestOf | crates/optimizer/src/cfg.rs:296-305 | the nearest common ancestor of all predecessors that already have a parent |
| ImmediateDominators.Step | crates/optimizer/src/cfg.rs:295-310 | one update keeps the invariant of a pass, and lowers the weight of the forest if it changed anything |
| ImmediateDominators.FixpointIsExact | crates/optimizer/src/cfg.rs:293-311 | once a pass changes nothing, the parents are exact: ancestors are the dominators of each vertex |
| ImmediateDominators.Compute | crates/optimizer/src/cfg.rs:290-311 | the iteration stops, with a parent set exactly for reachable vertices and the ancestors of a vertex exactly its dominators |
| Cfg.FindLeaders | crates/optimizer/src/cfg.rs:217-233 | instruction 0, everything after a branch or terminator and every target are marked |
| Cfg.CollectStarts | crates/optimizer/src/cfg.rs:235-239 | the marked indices in ascending order, none missing |
| Cfg.AssignBlocks | crates/optimizer/src/cfg.rs:240-244 | every instruction is in the block that starts last before it |
| Cfg.BlocksAreStraight | crates/optimizer/src/cfg.rs:217-244 | inside a block control only goes to the next instruction, and it enters a block only at its start |
| Cfg.ConnectBlocks | crates/optimizer/src/cfg.rs:246-263 | block edges are exactly the instruction edges out of last instructions, each once, and incoming mirrors outgoing, each once |
| Cfg.ReachabilityTransfers | crates/optimizer/src/cfg.rs:240-263 | an instruction is reachable exactly if its block is |
| Cfg.DominanceAcrossBlocks | crates/optimizer/src/cfg.rs:323-338 | for instructions of different blocks, dominance is dominance of the blocks |
| Cfg.DominanceInsideBlock | crates/optimizer/src/cfg.rs:323-338 | for instructions of one block, dominance is program order |
| Control.SuccessorsAreSent | crates/optimizer/src/cfg.rs:10-127 | the successors listed for an instruction are exactly those some outcome of it sends control to: fall-through, taken, each case of a pattern test, each arm or the default, item or exhausted |
| Cfg.PathsAreRuns | crates/optimizer/src/cfg.rs:10-127 | the paths of the flow graph are the runs of control, each instruction where some outcome of the one before sends it |
| Cfg.ReachableIffCanRun | crates/optimizer/src/cfg.rs:319-321 | reachability in the flow graph is that some run gets there |
| Cfg.DominatesIffMustPass | crates/optimizer/src/cfg.rs:323-338 | dominance in the flow graph is that every run passes the candidate |
| Cfg.RankOrder | crates/optimizer/src/cfg.rs:286-289 | the rank of a block is its position in the order |
| Cfg.NewDominators | crates/optimizer/src/cfg.rs:216-317 | for every nonempty chunk the result describes it: its blocks, the blocks runs of control get to, and exact dominators for them |
| Cfg.IsReachable | crates/optimizer/src/cfg.rs:319-321 | true exactly if some run of control from instruction 0 gets there |
| Cfg.QueryDominates | crates/optimizer/src/cfg.rs:323-338 | for a target some run gets to, true exactly if every run from the entry to it passes the candidate |
| Rewrite.NewIndexSpacing | crates/bytecode/src/rewrite.rs:143-152 | the index map is monotone, never stretches a distance, and separates a kept instruction from all later ones |
| Rewrite.BuildIndexMap | crates/bytecode/src/rewrite.rs:143-152 | the loop builds the map from each old index to the number of kept instructions before it |
| Rewrite.OffsetsNeverGrow | crates/bytecode/src/rewrite.rs:308-319 | a rebased offset keeps its direction and is no longer than before |
| Rewrite.ChunkCell.Compact | crates/bytecode/src/rewrite.rs:140-169 | the chunk updated in place is the compacted chunk; it fails only where the source panics |
| Compaction.InstructionRebases | crates/bytecode/src/rewrite.rs:176-260 | no width check can fail, and the rebased instruction differs only in offsets, which lead to the moved targets |
| Compaction.TableRebases | crates/bytecode/src/rewrite.rs:262-299 | every arm and the default of a rebased table lead to the moved targets |
| Compaction.CompactionSucceeds | crates/bytecode/src/rewrite.rs:140-169 | with targets in range compaction never panics, keeps shapes, spans and catch bounds, and moves a kept instruction's targets exactly if its table settles on its own rebase |
| Compaction.IterationShrinks | crates/bytecode/src/rewrite.rs:262-299 | however often a table is rebased, its offsets keep their direction and only shrink |
| Compaction.CompactionIsRightIff | crates/bytecode/src/rewrite.rs:140-169 | with targets in range, the targets of all kept instructions move with them if and only if the users of each table agree on each offset |
| Compaction.UnsharedAgrees | crates/optimizer/src/cfg.rs:129-140 | tables with one user each always agree |
| Compaction.DisagreementShows | crates/bytecode/src/rewrite.rs:262-299 | if they do not agree, some machine tells the compacted code from the original in one step |
| Compaction.CatchRangesPreserved | crates/bytecode/src/rewrite.rs:164-168 | a kept instruction is inside a catch range after compaction exactly if it was before |
| Compaction.ForeachEdgePreserved | crates/bytecode/src/rewrite.rs:140-169 | the skip edge of a kept foreach-next survives exactly if the instruction after it is kept |
| Compaction.EdgesPreserved | crates/optimizer/src/cfg.rs:10-127 | every outcome of a kept instruction sends control to the same place, moved; for a foreach-next, if the slot after it is kept |
| Compaction.HandlersPreserved | crates/runtime/src/vm/execute.rs:7180-7250 | the first catch entry that covers and accepts a raise is the same one, with its handler moved; a test that itself throws ends the search alike |
| Compaction.StepsCorrespond | crates/bytecode/src/rewrite.rs:140-169 | one step of the masked original is one step of the compacted code, or none for a deleted slot |
| Compaction.LockstepIff | crates/bytecode/src/rewrite.rs:140-169 | with targets in range, original and compacted code step alike at every kept instruction and for every outcome if and only if the users of each table agree and every kept foreach-next keeps the slot it skips over |
| Compaction.SkippedSlotBreaks | crates/optimizer/src/passes/prune_unreachable.rs:50-60 | a chunk without tables whose foreach-next loses that slot and skips one too far |
| Compaction.RunsCorrespond | crates/bytecode/src/rewrite.rs:140-169 | after any number of masked steps the compacted code is in the corresponding configuration |
| Compaction.RunsAreCovered | crates/bytecode/src/rewrite.rs:140-169 | every run of the compacted code is the image of a masked run of the original |
| Compaction.HasSharedSwitchTable | crates/optimizer/src/cfg.rs:129-140 | true exactly if two instructions switch on one table; if not, no mask shares a table |
| Compaction.SharedTableBreaks | crates/bytecode/src/rewrite.rs:262-299 | a chunk with a shared table whose second switch is led astray by its second rebase |
| Transaction.RecordPrevious | src/package/transaction.rs:351-364 | records exactly the artifacts that exist, the manifest only when it changes |
| Transaction.BackUp | src/package/transaction.rs:179-195 | wherever it stops, each old artifact is in place or backed up; when done, all of them are backed up |
| Transaction.Install | src/package/transaction.rs:119-168 | when done, each staged artifact is in place under its own name and nothing else changed; the manifest is untouched unless staged |
| Transaction.PiecesAreWhole | src/package/transaction.rs:129-160 | setting the staged artifacts one by one gives the old set overridden by the staged one |
| Transaction.Apply | src/package/transaction.rs:119-168 | wherever it stops, the old set is guarded; when done, the new set is in place |
| Transaction.Restore | src/package/transaction.rs:251-278 | when it succeeds, every artifact is as before, absent ones are absent, no backup and no marker is left; the marker only goes once the old set is back |
| Transaction.Commit | src/package/transaction.rs:30-117 | whatever fails and wherever it stops, crash safety holds, and each outcome says which set is in place; under a marker the old copy of an artifact is its backup if there is one, else the current one; without faults it commits |
| Transaction.Prepare | src/package/transaction.rs:198-249 | succeeds only without a marker and then leaves no backup; with a marker it changes nothing |
| Transaction.RunCommand | src/package/transaction.rs:30-213 | one process: crash safe, inert while a marker is there, complete when nothing fails |
| Transaction.RunCommands | src/package/transaction.rs:30-278 | over any run of commands each changes nothing or installs its whole set, until one leaves a marker; of the set that one began from each artifact is its backup if there is one, else the current copy, and nothing changes after it |
| EventLoopInvariants.MarkKeepsQueues | crates/loop/src/scheduler.rs:189-208 | queueing keeps each live task in at most one place, in the queue its kind selects |
| EventLoopInvariants.ArmKeepsTimers | crates/loop/src/scheduler.rs:212-223 | arming, and re-arming, keeps set timers current, present in the heap and counted |
| EventLoopInvariants.EnqueueKeeps | crates/loop/src/scheduler.rs:466-490 | a wake keeps the invariant |
| EventLoopInvariants.FireKeeps | crates/loop/src/scheduler.rs:492-509 | firing keeps the invariant |
| EventLoopInvariants.WakeExpiredKeeps | crates/loop/src/scheduler.rs:557-584 | an expiry pass keeps the invariant |
| EventLoopInvariants.RemoveKeeps | crates/loop/src/scheduler.rs:661-674 | removing a task keeps the invariant |
| EventLoopInvariants.CompactKeeps | crates/loop/src/scheduler.rs:692-707 | compaction keeps every set timer's entry and the counters' meaning |
| EventLoopInvariants.NextQueuedKeeps | crates/loop/src/scheduler.rs:339-367 | the first live task of the queue is activated with what was pending for it, and the rest stays in order |
| EventLoopInvariants.NextActivatesInOrder | crates/loop/src/scheduler.rs:324-367 | activations come from live microtasks, then live ready tasks, in order, and there is none exactly if no live task is queued |
| EventLoopInvariants.QueuedOnce | crates/loop/src/scheduler.rs:189-208 | a live task occurs once over both queues exactly if it is marked queued, with an activation pending |
| EventLoopInvariants.ApplyKeeps | crates/loop/src/scheduler.rs:116-707 | every operation keeps the invariant |
| EventLoopInvariants.ReachableStates | crates/loop/src/scheduler.rs:116-707 | the invariant holds after every run from the initial state |
| EventLoopTimers.RunAges | crates/loop/src/scheduler.rs:466-509 | over any run generations only grow and ids are not reused |
| EventLoopTimers.NoStaleWake | crates/loop/src/scheduler.rs:466-490 | after a wake, no timer entry armed before it fires in any continuation |
| EventLoopTimers.NoStaleFire | crates/loop/src/scheduler.rs:492-509 | the same after a descriptor or a timer did the waking |
| EventLoopTimers.ExpiryIsExact | crates/loop/src/scheduler.rs:557-584 | one pass fires exactly the tasks with a live entry due by now, each once, and leaves the rest alone |
| EventLoopTimers.ExpiryQueues | crates/loop/src/scheduler.rs:557-584 | fired tasks that were not queued join their queue's end in the order they fire |
| EventLoopTimers.FiresByDeadline | crates/loop/src/scheduler.rs:557-584 | tasks fire in the order of the deadlines of their first live entries |
| EventLoopTimers.FiringHasEntry | crates/loop/src/scheduler.rs:557-584 | every task that fires has a first live entry, and it is due |
| EventLoopTimers.NextDeadlineIsEarliest | crates/loop/src/scheduler.rs:586-591 | the sleep ends at the earliest live deadline, and there is none exactly if no timer is set |
| EventLoopTimers.DeadlockStays | crates/loop/src/scheduler.rs:394-400 | with nothing queued and no wake source, any poll leaves all tasks as they are and nothing to activate |
| EventLoopTimers.DeadlockForever | crates/loop/src/scheduler.rs:394-584 | the same for any number of polls and turns |
| EventLoopAccounting.ApplyTidy | crates/loop/src/scheduler.rs:212-223 | operations that do not re-arm a set timer keep heap size = live + stale and one entry per suspension |
| EventLoopAccounting.HeapIsAccountedFor | crates/loop/src/scheduler.rs:661-707 | in every run that never re-arms a set timer, heap size = live + stale |
| EventLoopAccounting.DroppedNeverFires | crates/loop/src/scheduler.rs:692-707 | what compaction drops in such a run never fires in any continuation |
| EventLoopAccounting.CompactionAddsUp | crates/loop/src/scheduler.rs:692-707 | after a compaction the counters add up exactly if no task has two entries |
| EventLoopAccounting.RevivalCondition | crates/loop/src/scheduler.rs:212-223 | an entry that is not live is, after some continuation, in the heap and live again exactly if its task is still in the generation it was armed in |
| EventLoopAccounting.RevivedFires | crates/loop/src/scheduler.rs:557-584 | such an entry fires: the expiry pass at its deadline resumes the task |
| EventLoopAccounting.RearmingLeavesOne | crates/loop/src/scheduler.rs:557-584 | when one of two entries of a timer fires while an activation is pending, the other stays behind |
| EventLoopAccounting.RearmingRevives | crates/loop/src/scheduler.rs:212-223 | a run from the initial state that leaves an entry counted as stale in its task's current generation, which fires after the task is armed once more |
| EventLoopPolling.PollIsExact | crates/loop/src/scheduler.rs:511-591 | a poll takes every ready waiter off, queues it with the idle value in its next generation if nothing was pending, does the same for every task with a timer due, in key order and then by deadline, and changes no other task, waiter or registration |
| EventLoopPolling.NonblockingIsExact | crates/loop/src/scheduler.rs:535-553 | the same without blocking; with no waiter the reactor is not asked, and a failed wait changes nothing |
| EventLoopPolling.FailedPollIsQuiet | crates/loop/src/scheduler.rs:544-546 | a failed wait only drops dead entries from the timer heap |
| EventLoopEffects.ApplyDoes | crates/loop/src/scheduler.rs:116-707 | from any valid state each operation does exactly what it is for, to tasks, queues, waiters, registrations and live timers, and nothing else |
| EventLoopEffects.QueuedStays | crates/loop/src/scheduler.rs:189-367 | a queued task keeps its coroutine and its activation through any operation that neither cancels it nor hands it out |
| EventLoopEffects.QueuedIsDelivered | crates/loop/src/scheduler.rs:189-367 | over any run a queued activation waits unchanged until it is handed out, as it was queued, or its task is cancelled |
| EventLoopEffects.DrainsInOrder | crates/loop/src/scheduler.rs:324-367 | turn after turn, the queued activations are handed out in queue order, each with its task and value |
| EventLoopEffects.WakeSourceIff | crates/loop/src/scheduler.rs:394-400 | there is a wake source exactly if some task has a timer set or a descriptor waits |
| Scheduler.Scheduler.constructor | crates/loop/src/scheduler.rs:116-137 | starts in the initial state, which is valid |
| Scheduler.Scheduler.Spawn | crates/loop/src/scheduler.rs:141-179 | inserts and queues a task under a fresh id; valid |
| Scheduler.Scheduler.SpawnArmed | crates/loop/src/scheduler.rs:156-179 | inserts a task without queueing it; valid |
| Scheduler.Scheduler.Mark | crates/loop/src/scheduler.rs:181-208 | queues a task once, at the front or the back of its queue |
| Scheduler.Scheduler.ArmTimerAt | crates/loop/src/scheduler.rs:212-223 | sets the timer for the current generation; valid |
| Scheduler.Scheduler.ParkCurrentOnTimer | crates/loop/src/scheduler.rs:655-659 | arms the current task's timer, or nothing without one; valid |
| Scheduler.Scheduler.ArmDescriptorFor | crates/loop/src/scheduler.rs:235-248 | reports whether the reactor registered the task; if so it is registered and waits, if not no waiter changes; valid |
| Scheduler.Scheduler.ParkCurrentOnDescriptor | crates/loop/src/scheduler.rs:602-617 | the same for the current task, and nothing without one; valid |
| Scheduler.Scheduler.RegisterDescriptor | crates/loop/src/scheduler.rs:619-649 | on success the key is registered as asked; on failure it is unchanged, or gone if another descriptor was deregistered for it and registering then failed; no other key moves |
| Scheduler.Scheduler.Unreference | crates/loop/src/scheduler.rs:250-258 | counts a reference down once; valid |
| Scheduler.Scheduler.Reference | crates/loop/src/scheduler.rs:260-267 | counts a reference up once; valid |
| Scheduler.Scheduler.Cancel | crates/loop/src/scheduler.rs:410-421 | disarms and removes the task; valid |
| Scheduler.Scheduler.DisarmTask | crates/loop/src/scheduler.rs:425-433 | removes the task's waiter and registration only; valid |
| Scheduler.Scheduler.Wake | crates/loop/src/scheduler.rs:443-490 | a task not yet queued gets the activation and a new generation; valid |
| Scheduler.Scheduler.FireTask | crates/loop/src/scheduler.rs:492-509 | resumes a task with nothing pending, and queues it |
| Scheduler.Scheduler.WakeReady | crates/loop/src/scheduler.rs:511-553 | disarms and fires the waiter of each ready key, in order |
| Scheduler.Scheduler.WakeExpiredTimers | crates/loop/src/scheduler.rs:557-584 | the loop over the heap is the expiry pass |
| Scheduler.Scheduler.PruneStaleHead | crates/loop/src/scheduler.rs:676-690 | drops entries from the head until a live one is there |
| Scheduler.Scheduler.PollReactor | crates/loop/src/scheduler.rs:525-553 | sleeps until the earliest live deadline, then wakes exactly the ready waiters and the tasks with a timer due, in that order; valid |
| Scheduler.Scheduler.PollReactorNonblocking | crates/loop/src/scheduler.rs:535-553 | the same without sleeping; skips the reactor when nothing waits; valid |
| Scheduler.Scheduler.NextActivation | crates/loop/src/scheduler.rs:324-327 | hands out the first live microtask, else the first live ready task, with what was pending for it; valid |
| Scheduler.Scheduler.NextMicrotaskActivation | crates/loop/src/scheduler.rs:330-332 | hands out the first live microtask with what was pending for it; valid |
| Scheduler.Scheduler.NextReadyActivation | crates/loop/src/scheduler.rs:335-337 | hands out the first live ready task with what was pending for it; valid |
| Scheduler.Scheduler.ClearCurrent | crates/loop/src/scheduler.rs:383-385 | forgets the current task and nothing else; valid |
| Scheduler.Scheduler.IsIdle | crates/loop/src/scheduler.rs:390-392 | true exactly if no task is referenced |
| Scheduler.Scheduler.CanWake | crates/loop/src/scheduler.rs:398-400 | true exactly if some task has a timer set or a descriptor waits |
| Scheduler.Retain | crates/loop/src/scheduler.rs:692-707 | keeps exactly the live entries, in order |
| PendingErrors.PendingErrors.Record | crates/loop/src/scheduler.rs:281-287 | appends to the queue of pending errors under a fresh id |
| PendingErrors.PendingErrors.Forget | crates/loop/src/scheduler.rs:290-301 | deletes that id from the queue, and bounds the order by max(pending + 1023, 2 pending - 1), or 0 when none are pending |
| PendingErrors.PendingErrors.Take | crates/loop/src/scheduler.rs:304-319 | removes and returns the oldest pending error, none exactly if the queue is empty |
| PendingErrors.PendingErrors.Compact | crates/loop/src/scheduler.rs:709-720 | drops tombstones without changing the queue, and only where that drops at least 1024 ids and half of them |
| PendingErrors.RetainedIsSameQueue | crates/loop/src/scheduler.rs:709-720 | the order without tombstones stands for the same queue |
| PendingErrors.QueueForgets | crates/loop/src/scheduler.rs:290-301 | removing an id from the map deletes exactly its entry from the queue |
| Lockfile.OrderedIsAcyclic | src/package/lock.rs:448-474 | a finishing order in which dependencies come first rules out a cycle |
| Lockfile.Search | src/package/lock.rs:438-474 | the search stops; a reported name needs itself, otherwise nothing reachable does and what is complete is exactly what is reachable |
| Lockfile.FindUnlocked | src/package/lock.rs:422-436 | reports the first unlocked name, runtime roots first, then development roots, then dependencies in package order, and none exactly if all are locked |
| Lockfile.FindIncomplete | src/package/lock.rs:476-478 | reports the first locked name in sorted order that the search did not complete, and none exactly if it completed all |
| Lockfile.MapEntries | src/package/lock.rs:417-421 | a package has the dependencies of its last entry, and is locked exactly if it has one |
| Lockfile.ValidateReferences | src/package/lock.rs:416-481 | valid exactly if all names are locked, no reachable package needs itself and every package is reachable; a missing reference is the first, an unreachable package the first in sorted order, and a reported cycle is one |
| DependencyChain.NoShortcut | src/commands/why.rs:84-113 | levels of the search are distances: no chain is shorter |
| DependencyChain.ChainFrom | src/commands/why.rs:78-116 | a chain of real dependencies from a root to the target, and no chain is shorter; everything nearer is then locked; none only if the target is unreachable or another package at least as near is not locked |
| DependencyChain.ChainTo | src/commands/why.rs:67-76 | on a lock with all names locked, a chain is found exactly for reachable packages, flagged development exactly if the runtime roots do not reach it |
| Documents.PropagateIsExact | crates/formatter/src/printer.rs:538-566 | propagation says exactly whether a document must break, and its early stop and its marks change no later answer |
| Layout.SuffixesMoveToLineEnd | crates/formatter/src/document.rs:24-26 | in the layout a line is its own items in order, then what its suffixes hold, then the break |
| Layout.LaidKeepsLeaves | crates/formatter/src/printer.rs:192-264 | the layout writes every item of the chosen branches exactly once |
| Layout.RenderedKeepsContent | crates/formatter/src/printer.rs:435-451 | the text says what the items say: only spaces and tabs are added or trimmed |
| Layout.EndedLineStays | crates/formatter/src/printer.rs:395-398 | a line that a break ended stays in the text, less the spaces and tabs at its end, whatever is written later |
| Layout.PrefixIsDepth | crates/formatter/src/printer.rs:61-82 | a line starts with as many tabs, or tab widths of spaces, as it is deep |
| Layout.NestDeepens | crates/formatter/src/printer.rs:291-307 | an indent is one level deeper |
| PrintedInk.ResolvedInk | crates/formatter/src/printer.rs:192-264 | whatever the groups choose, a document whose choices differ only in white space resolves to its own strings, less white space |
| PrintedInk.TextKeepsInk | crates/formatter/src/printer.rs:192-264 | the text of such a document differs from its strings only in white space, and in order only by line suffixes |
| Layout.BlankLineIffMultiline | crates/formatter/src/document.rs:19-21 | in a truthful layout the blank line after a document is there exactly if what was written from its beginning to its end crossed a line boundary |
| PrintMachine.StepProgresses | crates/formatter/src/printer.rs:192-264 | every turn leaves less to print, or as much with fewer suffixes pending, so the loop stops |
| PrintedLayout.GroupResolves | crates/formatter/src/printer.rs:309-364 | a group is pushed in a mode it may choose: flat if never-break, broken if it must, or with a broken parent it follows, else as the measure answers |
| PrintedLayout.GroupChooses | crates/formatter/src/printer.rs:309-364 | the mode pushed is flat exactly if the answer was yes, and the answer is noted where it was asked for |
| PrintedLayout.LineResolves | crates/formatter/src/printer.rs:366-401 | a line is nothing, a space, or a break after the pending suffixes |
| PrintedLayout.PropagatedResolves | crates/formatter/src/printer.rs:538-566 | marks left on groups do not widen what a document may print |
| PrintedLayout.RunLaysOut | crates/formatter/src/printer.rs:192-264 | for any document and any fit measure, a run writes the layout of its commands as they resolve, less the suffixes pending when it stops |
| PrintedInFull.RunEndsDry | crates/formatter/src/printer.rs:256-258 | a run of a document that ends in a hard line leaves no suffix pending |
| PrintedInFull.LossIff | crates/formatter/src/printer.rs:202-214 | a run leaves a suffix unprinted exactly if it meets a last blank-line check that stays silent while a suffix is pending |
| PrintedInFull.GroundedRunsDry | crates/formatter/src/printer.rs:256-258 | a run where neither the document nor a suffix ends in a blank-line check leaves no suffix pending |
| PrintedInFull.RunIsTruthful | crates/formatter/src/printer.rs:202-214 | every answer about a blank line in what a run writes is right |
| PrintedInFull.DryRunConserves | crates/formatter/src/printer.rs:192-264 | a run that leaves no suffix pending wrote the layout of its document |
| PrintedInFull.BareRunsDry | crates/formatter/src/printer.rs:256-258 | a run of a document without line suffixes leaves none pending |
| PrintedInFull.PrintingConserves | crates/formatter/src/printer.rs:192-264 | what is written for a document that ends in a hard line, where neither it nor a suffix ends in a blank-line check, or that has no suffix, is the layout of the document |
| PrintedInFull.SuffixCanBeLost | crates/formatter/src/printer.rs:202-214 | a document that meets that loss, and no layout of it is what was written |
| FitMeasure.AskedIff | crates/formatter/src/printer.rs:316-356 | the measure is asked exactly for a group that is free to choose, in a broken parent, measured on its own or after a hard line in a flat one, and its answer is what is noted |
| FitMeasure.AnswersAreMeasured | crates/formatter/src/printer.rs:352-356 | every answer noted in a run was given by the measure for the group on top at that point |
| FitMeasure.RunIsSteps | crates/formatter/src/printer.rs:192-264 | a whole run is so many steps |
| FitMeasure.RemeasureIff | crates/formatter/src/printer.rs:333-384 | measuring afresh is due exactly from a hard line met in a flat group until the next group that chooses afresh |
| FitMeasure.FlatGroupIsUnbroken | crates/formatter/src/printer.rs:309-364 | a group with nothing in it that breaks by itself resolves without a line break if every answer is yes |
| FitMeasure.WideGroupBreaks | crates/formatter/src/printer.rs:309-364 | a group free to choose in a broken parent breaks all its direct lines if every answer is no |
| FitMeasure.FittingGroupIsOneLine | crates/formatter/src/printer.rs:309-401 | with a measure that always says yes such a group is printed without a line break |
| FitMeasure.WideGroupIsBroken | crates/formatter/src/printer.rs:309-401 | with one that always says no every line directly in a group is printed as a line break |
| FitMeasure.FittingGroupReads | crates/formatter/src/printer.rs:309-432 | with a measure that always says yes the text of such a group without suffixes is its strings, a space for each line that is not soft, and the flat side of each choice |
| FitMeasure.WideDocumentBreaks | crates/formatter/src/printer.rs:309-432 | with one that always says no a document without never-break groups, suffixes and blank-line checks is written with every line broken, at the depth of its indents, and the broken side of each choice |
| FitMeasure.DeepIsDeep | crates/formatter/src/printer.rs:291-307 | that many indents are that deep |
| Printer.Printer.constructor | crates/formatter/src/printer.rs:168-188 | starts with the document as the only command and an empty buffer |
| Printer.Printer.HandleString | crates/formatter/src/printer.rs:271-275 | appends the text and keeps column and line count right |
| Printer.Printer.TrimTrailingWhitespace | crates/formatter/src/printer.rs:443-451 | drops exactly the spaces and tabs at the end |
| Printer.Printer.AddIndentation | crates/formatter/src/printer.rs:435-441 | appends as many tabs, or tab widths of spaces, as the indentation is deep, and the width it returns is theirs |
| Printer.Printer.HandleGroup | crates/formatter/src/printer.rs:309-364 | pushes the group as the machine does, flat exactly if the measure says yes where it is asked, and notes the answer |
| Printer.Printer.HandleLine | crates/formatter/src/printer.rs:366-401 | prints or defers the line as the machine does |
| Printer.Printer.Advance | crates/formatter/src/printer.rs:195-260 | one turn of the loop is one step of the machine, with buffer, column and line count kept right |
| Printer.Printer.Build | crates/formatter/src/printer.rs:192-264 | the loop stops, and its text is that of the machine's whole run |
| Printer.ColumnIsLineWidth | crates/formatter/src/printer.rs:271-275 | the column is the width of what follows the last line break in the text, for any width that adds up |
| Printer.PrintDocument | crates/formatter/src/printer.rs:168-264 | for a document that ends in a hard line, where neither it nor a suffix ends in a blank-line check, or that has no suffix, the text is its rendered layout, with the right blank lines; if its choices differ only in white space the text differs from its strings only in white space, and in order only by suffixes |
| LintScopes.FindSetting | crates/linter/src/attributes.rs:170-186 | the loop finds the last setting of the nearest scope up the chain that mentions the code |
| LintScopes.CollectAttribute | crates/linter/src/attributes.rs:214-262 | a setting is added as written unless the code is forbidden already, here or above |
| LintScopes.Collect | crates/linter/src/attributes.rs:59-142 | the explicit stack lists the same scopes, with the same parents and settings, as recursion over the tree |
| LintLookup.CollectionIsNested | crates/linter/src/attributes.rs:59-142 | a properly nested program gives scopes in preorder, each inside its ancestors and after all others |
| LintLookup.PartitionPoint | crates/linter/src/attributes.rs:145-148 | binary search finds how many scopes start at or before an offset |
| LintLookup.SearchClimbs | crates/linter/src/attributes.rs:144-159 | for a nonempty span, climbing from the last scope that contains it gives what searching all scopes gives |
| LintLookup.Get | crates/linter/src/attributes.rs:144-159 | the setting found by climbing from the last scope that contains the span; for a nonempty span that of the innermost scope that contains it and mentions the code |
| LintLookup.SearchAgreesIff | crates/linter/src/attributes.rs:144-159 | for any span, both searches stop at the same scope exactly if every scope off the way up that contains the span and mentions the code comes before one on it that does |
| LintLookup.DisagreementIsEmpty | crates/linter/src/attributes.rs:144-159 | they part only for an empty span where one scope ends and another starts |
| LintLookup.EmptySpanCanDisagree | crates/linter/src/attributes.rs:144-159 | two adjacent scopes for which they do part, the first of which forbids the lint |
| LintLookup.CollectionObeys | crates/linter/src/attributes.rs:214-262 | no collected scope mentions what an ancestor forbids, and a forbidding setting is the last of its code |
| LintLookup.ForbidIsSticky | crates/linter/src/attributes.rs:214-262 | a span is looked up as Forbid exactly if a scope on the way up forbids the lint, whatever attributes stand between; for a nonempty span, exactly if some scope that contains it does |
| LintLevels.AddingLevels | crates/linter/src/attributes.rs:214-262 | adding the attributes of a node one by one leaves Forbid if any attribute so far or above forbids, else the last one, else what was there |
| LintLevels.LookupIsLevel | crates/linter/src/attributes.rs:59-186 | for a nonempty span in a properly nested program the lookup gives Forbid if any enclosing attribute forbids the lint, else the last attribute of the innermost node with one, else the last of the file, and none exactly if there is none |
| LintLevels.LevelAt | crates/linter/src/attributes.rs:59-186 | collecting and looking up give that level |
| Utf8.UnitsAreUtf16 | src/server/text.rs:32-34 | counting code units byte by byte gives the UTF-16 length of the text |
| Utf8.DecodesBack | src/server/text.rs:32-34 | the bytes of a character decode to its code point, as section 3 of RFC 3629 lays them out |
| Utf8.Utf16DecodesBack | src/server/text.rs:32-34 | the code units of a character decode to its code point, as section 2 of RFC 2781 lays them out, and surrogates only come in pairs |
| Utf8.BoundaryEndsPrefix | src/server/text.rs:67-74 | the bytes that do not continue a character are exactly the ends of prefixes of the text |
| LineIndex.NewIndex | src/server/text.rs:10-21 | lines start at 0 and after each newline, and nowhere else |
| LineIndex.LineEnd | src/server/text.rs:76-87 | the end of a line is never before its start nor in the next line; the next row says where exactly |
| LineIndex.LineEndIsExact | src/server/text.rs:76-87 | from the end of a line to the next start lies exactly its terminator, a newline or a carriage return and a newline, and all of it; the last line ends with the text |
| LineIndex.ClampToBoundary | src/server/text.rs:67-74 | the last boundary at or before the offset |
| LineIndex.FindLine | src/server/text.rs:23-30 | the last line that starts at or before the offset |
| LineIndex.PositionOf | src/server/text.rs:28-40 | the line is the number of newlines before the offset, once inside its line and not inside a character; the column is what the lemmas below are about |
| LineIndex.OffsetOf | src/server/text.rs:42-61 | the first boundary of the line with at least as many units before it, or the end of the line; past the last line, the end of the text |
| LineIndex.LineCountsNewlines | src/server/text.rs:28-40 | the line of an offset is the number of newlines before it |
| LineIndex.OffsetIsFirst | src/server/text.rs:42-61 | a position of an existing line means the first boundary with at least as many units before it, or the end of the line |
| LineIndex.WalkArrives | src/server/text.rs:51-60 | walking the units between two boundaries arrives at the second |
| LineIndex.OffsetOfPosition | src/server/text.rs:28-61 | an offset comes back as the boundary at or before it, or as the end of its line |
| LineIndex.BoundaryRoundTrip | src/server/text.rs:28-61 | a boundary not past the end of its line comes back unchanged |
| LineIndex.PositionRoundTrip | src/server/text.rs:28-61 | a position on a code-point boundary of an existing line comes back unchanged |
| LineIndex.PositionsAscend | src/server/text.rs:28-40 | a later offset never has an earlier position |
| LineIndex.ColumnCountsUtf16 | src/server/text.rs:28-40 | the column is the UTF-16 length of the characters before it on its line |
| ManifestHash.Hasher.HashText | src/config/hash.rs:68-71 | feeds the length in eight bytes, then the text |
| ManifestHash.Hasher.HashOptional | src/config/hash.rs:56-66 | feeds a tag, then the text if there is one |
| ManifestHash.Hasher.HashCommon | src/config/hash.rs:31-53 | feeds the sections shared by both hashes |
| ManifestHash.ResolutionStream | src/config/hash.rs:5-22 | feeds the root stream, from which a valid manifest can be read back |
| ManifestHash.ConsumedResolutionStream | src/config/hash.rs:24-29 | feeds the consumed stream, from which the shared data can be read back |
| ManifestHash.NumberReads | src/config/hash.rs:68-71 | the eight length bytes give the length, least byte first |
| ManifestHash.TextReads | src/config/hash.rs:68-71 | a frame ends where its length says, so the text in front and what follows are read back |
| ManifestHash.EntriesRead | src/config/hash.rs:35-50 | a list of entries is read back if no key equals the marker that closes it |
| ManifestHash.RootReadsBack | src/config/hash.rs:5-22 | reading a root stream section by section gives back the whole valid manifest |
| ManifestHash.ConsumedReadsBack | src/config/hash.rs:24-29 | reading a consumed stream gives back the shared data |
| ManifestHash.PrefixesAvoid | src/config/manifest.rs:324-327 | no autoload prefix is a marker, because prefixes end in a backslash |
| ManifestHash.IdentitiesAvoid | src/package/source.rs:155-160 | no source identity is a marker, because identities start with git+ |
| ManifestHash.RootStreamIsUnique | src/config/hash.rs:5-22 | two valid manifests feed the root hash alike exactly if all their data is equal |
| ManifestHash.ConsumedStreamIsUnique | src/config/hash.rs:24-29 | the consumed hash is fed alike exactly if the shared data is equal |
| ManifestHash.StreamsAreApart | src/config/hash.rs:5-29 | a root stream is never a consumed one |

## Left out

- Instruction operands other than offsets: the instruction set is given by its control-flow classes, and opcodes have an arbitrary meaning over an arbitrary state.
- Exception edges in the control-flow graph: `successors` has none, and dominance is stated over that graph. Raises and handlers are part of the runs that compaction preserves.
- Offsets that lead before the first instruction: the source panics on them; the model ignores such an edge.
- Labels of switch arms, and indices wider than 32 bits.
- Real file I/O: contents are opaque values, a hard link is a copy by value, and directory syncs are steps that may fail. Durability of unsynced writes is not modelled. The install lock is taken to exclude other processes.
- What a stage holds: the staged contents are parameters, the manifest among them exactly if the command changes it, and removing stages is a step that touches no artifact.
- Wrap-around of task ids, generations and error ids: they are unbounded.
- The binary heap of timers: it is given by its contents in heap order, with insertion into the sorted list.
- The reactor and the clock: readiness keys, reactor errors and the current time are arguments.
- The pending errors are a class of their own, because no other scheduler field depends on them.
- Finished and cancelled coroutines: stack switching and coroutine handles are opaque.
- Which package of a cycle the error names, and the other lockfile validators: single checks on one field.
- The fit measure `group_fits` and display widths: both are arbitrary functions, so every statement holds whatever they answer (`Printer.ColumnIsLineWidth` is about widths that add up). That the chosen layout is the best for the width is not stated.
- In-place marks on groups: `propagate_breaks` returns the marked document instead of writing cells.
- Printer.PrintDocument: for documents with a line suffix where a blank-line check can come last it says nothing beyond PrintedLayout.RunLaysOut and PrintedInFull.LossIff, because a pending suffix can be lost there.
- Name resolution of lint attributes, their arguments and their diagnostics: a node carries the settings its attributes resolve to. The early exit when the source text holds no attribute is not modelled.
- The language server's transport, and `range`, which is two positions.
- BLAKE3 and its hex form: the statements are about the bytes fed to it.
- Parsing of manifests, URLs and version requirements: manifests are given by their normalized entries in key order.
- The virtual machine, the compiler's rules, the optimizer's other passes, the register allocator and the command line.
