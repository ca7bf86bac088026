# A verified model of the shared-memory table library

The library keeps Lua-style tables in memory shared by several processes.  This project models its core in Dafny and
proves what that core is for.

- **Garbage collector, tables and process layer** (`GcModel` to `GcReclaim`, `Collector`, `Tables`, `TableIter`, `TreeTable`,
  `Capi`, `CapiReclaim`).
  The collector is an incremental mark and sweep collector with an insertion barrier: slices of bounded work alternate
  with the mutators' steps.  `GcModel` gives every operation as a function on one state; `Collector` is the object with
  its queues and loops, each method proved equal to those functions; the theorems are about all runs, all budgets and all
  reachable states.  `GcEffects` says what each step does to bindings and queues without the step's own definition,
  `GcReclaim` that what is dropped is freed, `GcBudget` what a slice may cost.  `Capi` adds processes, their root tables
  and their handles, with crashes and clean-up; `CapiReclaim` says what becomes of the tables of a process that is gone.
- **B-tree** (`BTreeModel` to `BTree`), for any minimum degree of at least 2: one-pass add and delete, search, iterator;
  `BTreeCell` has the node operations on arrays.
- **Red-black tree** (`RbModel` to `RbTree`): linked cells with parent pointers and a shared sentinel, changed in place.
  A tree with a hole and the path above it (`Ctx`) carries the proofs through rotations and fixup loops.  `TreeTable` puts
  a table and its iterator on this tree, `FreeTree` the page pool's index of free runs.
- **Memory**: regions (`Region`), the page pool on them (`PageRuns`, `PageCount`, `PagePool`, `PageAddr`, `PageMemory`, `Masks`) and
  the slabs on the page pool (`Bitmap`, `SlabModel`, `SlabMemory`, `Slab`), joined so that the objects handed out are
  disjoint pieces of the regions handed out; and the **sparse array** (`Sparse`).

Inputs the code gets from elsewhere are parameters: the budgets a clock would yield, the order in which a recursive walk
meets children, which table ids are free.

Five findings about the code are stated as theorems with their exact conditions.

- A reachable table that becomes a root inside a round can be freed while it is a root.  This happens in some run if and
  only if the open round has a budget, has neither marked nor queued the table, and will not come to it through a table
  that no caller can reach (`GcRootKept.RootLostExactly`; `GcLateRoot.LateRootIsFreed` is a run from the initial state).
  The process layer never does this.
- A region that is not a whole number of data pages can be too short for the pages counted for it
  (`PageAddr.FitsExactly`, `PageAddr.PartialRegionTooShort`).
- An address in the slack after a region's last page is given a page record that does not exist (`PageAddr.AddrToPage`,
  `PageAddr.SlackExactly`, `PageAddr.SlackAddress`).
- An object in use can be freed if and only if its slab lies on a page boundary (`Slabs.SlabPool.Free`), which is so exactly
  when its region does (`Slabs.AlignedExactly`); that holds for all regions exactly when the memory block does and the
  regions, if several, are whole pages (`Slabs.RegionsAligned`).  `Slabs.Misaligned` allocates an object that cannot be freed.
- Masking is rounding to pages if and only if the page size is a power of two, while every multiple of 512 is accepted
  (`Masks.MaskAlignExactly`, `Masks.PageBaseExactly`, `Masks.MaskMisses`).

Where code and documentation differ the code is followed: the free budget counts one per table, because the element count
that is added to it has just been set to zero (src/gc/gc.c:224-234); deleting the root of a red-black tree leaves the new
root's parent link as it was (src/rbtree/rbtree.c:264-273), so that link is left open.

## Model

| member | source | states |
|---|---|---|
| `GcRuns.StepKeeps` | src/gc/gc.c:253-393 | every collector slice with any budgets and every mutator step (new, add, set, remove key, remove all, add root, remove root) keeps the collector's invariant: tri-colour while a round is open, disjoint sweep queues, nothing reachable by a traversal freed |
| `GcRuns.RunKeeps` | src/gc/gc.c:253-338 | the invariant holds after every interleaving of slices and mutator steps |
| `GcRuns.RunSafe` | src/gc/gc.c:201-303 | in every run, each table reachable from a root, and each freshly made table, is still allocated |
| `GcRuns.NothingReachableFreed` | src/gc/gc.c:201-251 | no further step of any run frees a root-reachable table, and no slice changes its elements or cuts it off from the roots |
| `GcRuns.RunTriColour` | src/gc/gc.c:108-149 | once anything is condemned, every root-reachable table is marked, queued for marking, or a root in no queue that nothing refers to, and all its children are marked or queued |
| `GcRuns.RunNeverInvalid` | src/gc/gc.c:122-126 | no slice of any run returns ST_STATE_INVALID |
| `GcRuns.RunNoDangling` | src/gc/gc.c:214-235 | in every run, whatever can be met from the roots or from the mark, prev-sweep, sweep or remained queue is allocated; queued tables are allocated; a sweep node is in at most one of the four sweep queues |
| `GcRuns.InitialInv` | src/gc/gc.c:395-428 | the initial collector satisfies the invariant |
| `GcRuns.AddRootExact` | src/gc/gc.c:340-363 | a statement about the collector's invariant only: making a root-reachable table a root keeps the invariant if and only if no round is open or the round has marked or queued the table |
| `GcRootKept.RootLostExactly` | src/gc/gc.c:340-363 | a root-reachable table that is made a root is freed, while it stays a root, in some run of allowed steps if and only if a round is open that is not stuck for want of budget, the round has neither marked nor queued the table, and no table out of every caller's reach leads marking to it |
| `GcRootLost.LateRootLost` | src/gc/gc.c:253-363 | such a late root is lost: the callers cut every reference to it that they can reach, which queues it for sweeping, and slices of budget one then condemn and free it |
| `GcRootLost.SliceCommutes` | src/gc/gc.c:253-303 | inside a round a slice does the same whatever the roots are |
| `GcRootLost.CutAll` | src/table/table.c:415-449 | removals of keys, each allowed when it is made, leave no reference to a reachable table in any table that was reachable, and leave it queued for sweeping |
| `GcRootKept.RootNeverLost` | src/gc/gc.c:80-106 | a root stays allocated through every run in which it stays a root, if the invariant holds or marking will come to it through a table out of the callers' reach |
| `GcRootKept.SlicePending` | src/gc/gc.c:253-303 | a slice leaves such a root waiting or makes the invariant whole again |
| `GcRootKept.StepPending` | src/table/table.c:314-449 | so does every mutator step: no caller can reach the tables on the way |
| `GcRootKept.JammedRun` | src/gc/gc.c:80-106 | an open round whose visit or free budget is zero frees nothing in any run |
| `GcLateRoot.LateRootIsFreed` | src/gc/gc.c:340-363 | a concrete run in which a reachable but unmarked table is made a root inside a round and is then freed while it is a root |
| `GcSteps.MarkOneKeeps` | src/gc/gc.c:87-103 | marking one table and queueing its unknown children keeps the invariant |
| `GcSteps.SweepOneKeeps` | src/gc/gc.c:115-146 | classifying one swept table keeps the invariant, and the table is never already condemned |
| `GcSteps.GarbageUnreachable` | src/gc/gc.c:280-288 | when all marking is done, no table that a traversal can meet is condemned |
| `GcSteps.FreeOneKeeps` | src/gc/gc.c:214-235 | freeing one condemned table keeps the invariant |
| `GcSteps.BeginRoundKeeps` | src/gc/gc.c:263-278 | opening a round by queueing the roots establishes the tri-colour invariant |
| `GcSteps.EndRoundKeeps` | src/gc/gc.c:290-293 | closing a round, which moves the remained tables to prev-sweep and makes all marks unknown again, keeps the invariant; that none of them is forgotten is GcReclaim.SliceKeepsWaiting |
| `GcSlice.MarkTablesKeeps` | src/gc/gc.c:151-199 | the mark phases keep the invariant, stay inside the round, and report only ST_OK or ST_EMPTY |
| `GcSlice.RunSliceKeeps` | src/gc/gc.c:253-303 | a slice keeps the invariant, roots and elements of surviving tables, and ends with ST_OK or ST_NO_GC_DATA |
| `GcSlice.SliceSafe` | src/gc/gc.c:253-303 | what the roots reach before a slice is allocated and still reachable after it |
| `GcMutators.AddKeeps` | src/table/table.c:369-413 | adding a key, with its insertion barrier, keeps the invariant |
| `GcMutators.SetKeeps` | src/table/table.c:314-367 | setting a key keeps the invariant; what it does to bindings and queues is GcEffects.SetEffect |
| `GcMutators.RemoveKeeps` | src/table/table.c:415-449 | removing a key keeps the invariant |
| `GcMutators.RemoveAllKeeps` | src/table/table.c:284-312 | removing all elements, in any order of the children, keeps the invariant; what it does is GcEffects.ClearEffect |
| `GcMutators.NewTableKeeps` | src/table/table.c:184-208 | a new table keeps the invariant and starts unlinked and empty |
| `GcMutators.AddRootKeeps` | src/gc/gc.c:340-363 | adding a fresh table, or a reachable one the open round already knows, as a root keeps the invariant |
| `GcMutators.RemoveRootKeeps` | src/gc/gc.c:365-393 | removing any root, with or without giving it to the sweep queue, keeps the invariant |
| `GcEffects.AddEffect` | src/table/table.c:369-413 | exactly the new binding joins the table seen as a map and the version grows by one, or ST_EXISTED and the whole state is unchanged; a stored table that the round neither marked nor queued joins the mark queue; every other table, mark, queue and root is as before |
| `GcEffects.SetEffect` | src/table/table.c:314-367 | the key is bound to the new value and no other binding changes; the table it was bound to, whatever the new value is, moves to the sweep queue and no other does; the new one is queued for marking |
| `GcEffects.RemoveEffect` | src/table/table.c:415-449 | exactly the key's binding goes and the table it was bound to, and no other, moves to the sweep queue; or ST_NOT_FOUND and the whole state is unchanged |
| `GcEffects.ClearEffect` | src/table/table.c:227-258 | no element is left, the version grows by their number, exactly the tables they referred to move to the sweep queue, and all other tables, marks, roots and the mark queue are unchanged |
| `GcEffects.NewEffect` | src/table/table.c:184-208 | one empty table with version 0 and an unknown mark, in no queue, and nothing else |
| `GcEffects.AddRootEffect` | src/gc/gc.c:340-363 | the root array gains exactly this table and stays ascending, or ST_EXISTED or out of memory exactly when it is there or the array is full, with nothing changed |
| `GcEffects.RemoveRootEffect` | src/gc/gc.c:365-393 | exactly this root goes, and on request moves to the sweep queue; or ST_NOT_FOUND exactly when it is no root, with nothing changed |
| `GcEffects.DroppedSwept` | src/table/table.c:227-449 | one law for set, remove and remove all: a table that the changed table referred to and no longer does is in the sweep queue afterwards |
| `GcTrace.SliceTrace` | src/gc/gc.c:253-303 | a slice is a sequence of single steps in the order mark, prev-sweep, sweep, free, with at most as many visits and frees as its budgets allow; it makes at least one of them or ends the round when its budgets are at least one |
| `GcProgress.StepWork` | src/gc/gc.c:87-146 | each single step lexicographically decreases (unknown tables, swept tables queued, condemned tables) |
| `GcProgress.SliceWork` | src/gc/gc.c:253-303 | with budgets of at least one, a slice that leaves the round open decreases the same measure |
| `GcProgress.SliceStage` | src/gc/gc.c:280-293 | without mutators a slice either stays in its round or ends it with an empty mark queue and round + 4, and at most two further rounds can follow |
| `GcProgress.NoDataEmpty` | src/gc/gc.c:263-268 | when a slice reports ST_NO_GC_DATA the garbage and remained queues are empty too |
| `GcQuiet.QuietRound` | src/gc/gc.c:253-303 | a round that begins with an empty mark queue and meets no mutator frees exactly the tables reachable from the swept tables and not from the roots, however it is cut into slices |
| `GcReclaim.SliceKeepsWaiting` | src/gc/gc.c:280-293 | in every state inside the invariant: a table that waits in the sweep or remained queue still waits, or is condemned or freed, after a slice that leaves the round open; after a slice that ends it the table is freed or in the prev-sweep queue |
| `GcReclaim.RoundKeepsWaiting` | src/gc/gc.c:253-303 | the same for the rest of a round, however it is cut into slices |
| `GcReclaim.SweptReclaimed` | src/gc/gc.c:253-303 | two-round reclamation, from any state inside or between rounds: a table in the sweep or remained queue that the roots do not reach is no longer allocated once two rounds have ended without mutators |
| `GcReclaim.DroppedReclaimed` | src/table/table.c:314-449 | so whatever a set, a remove, a remove-all or a removed root drops, and the roots no longer reach, is freed by the next two undisturbed rounds |
| `GcBudget.SliceBounded` | src/gc/gc.c:80-149 | however many tables there are, a slice changes the marks of at most max_visit_cnt tables that it leaves allocated and frees at most max_free_cnt |
| `GcBudget.SliceUsesBudget` | src/gc/gc.c:253-303 | a slice that leaves its round open has used up its visit budget or its free budget |
| `GcBudget.TraceCounts` | src/gc/gc.c:87-146 | the visit counter is the number of tables visited plus the number of children they queued; the free counter is the number freed |
| `GcBudget.NextBudgets` | src/gc/gc.c:190-248 | the visit budget is renewed exactly when something was visited, the free budget exactly when the slice stopped for want of it |
| `Collectors.NoDataIff` | src/gc/gc.c:263-268 | a slice reports ST_NO_GC_DATA exactly when no round is open and both sweep queues are empty, and then only resets its counters |
| `Collectors.Collector.RootsToMarkQueue` | src/gc/gc.c:11-23 | the loop appends every root that is not yet in the mark queue |
| `Collectors.Collector.UnknownChildrenToQueue` | src/gc/gc.c:25-78 | the walk queues each unknown child whose node for that queue is free, once, in key order, and counts it |
| `Collectors.Collector.MarkReachableTables` | src/gc/gc.c:80-106 | the loop is iterated single marking until the budget is used or the queue is empty; every table it touches is allocated |
| `Collectors.Collector.MarkGarbageTables` | src/gc/gc.c:108-149 | the loop is iterated single sweeping of the given queue |
| `Collectors.Collector.MarkAll` | src/gc/gc.c:151-199 | the three phases in order, and the next visit budget only when something was visited |
| `Collectors.Collector.FreeGarbage` | src/gc/gc.c:201-251 | the loop is iterated single freeing |
| `Collectors.Collector.Run` | src/gc/gc.c:253-303 | one slice: the new state and result, the invariant, every linkable table kept with its elements; when the round ends, every table that waited in the sweep or remained queue and is still allocated is in the prev-sweep queue |
| `Collectors.Collector.MarkTable` | src/gc/gc.c:305-321 | afterwards the open round has marked or queued the table, and no other table that it had not; nothing is queued twice, and for a root-reachable table the invariant is kept |
| `Collectors.Collector.SweepTable` | src/gc/gc.c:323-338 | exactly this table moves to the sweep queue from whichever queue its node was in, every other table keeps its place and the four queues stay disjoint; for a table that a root-reachable one refers to the invariant is kept |
| `Collectors.Collector.NewTable` | src/table/table.c:184-208 | an empty table with an unknown mark, in no queue, and nothing else changes |
| `Collectors.Collector.AddKeyValue` | src/table/table.c:369-413 | the new binding and barrier, or ST_EXISTED and no change; the invariant is kept |
| `Collectors.Collector.SetKeyValue` | src/table/table.c:314-367 | the key is bound to the new value, the table it was bound to is in the sweep queue whatever the new value is, the new one is marked or queued; the invariant is kept |
| `Collectors.Collector.RemoveKey` | src/table/table.c:415-449 | the binding removed and its table in the sweep queue, or ST_NOT_FOUND and no change; the invariant is kept |
| `Collectors.Collector.RemoveAll` | src/table/table.c:284-312 | no element is left, each table they referred to is in the sweep queue, the version raised once per element, all else unchanged; the invariant is kept |
| `Collectors.Collector.AddRoot` | src/gc/gc.c:340-363 | the root inserted in address order, which the invariant keeps, ST_EXISTED, or out of memory when the array is full; the invariant is kept |
| `GcMutators.RootInserted` | src/gc/gc.c:340-363 | inserting at the rank keeps the root array strictly ascending and adds exactly the root |
| `GcMutators.RootTaken` | src/gc/gc.c:365-393 | taking a root out keeps the array strictly ascending |
| `Collectors.Collector.RemoveRoot` | src/gc/gc.c:365-393 | the root removed and on request in the sweep queue, or ST_NOT_FOUND and no change; the invariant is kept |
| `Collectors.Collector.Destroy` | src/gc/gc.c:430-458 | the loop ends after an open round and at most one more, or after at most two when none is open (round grows by at most 8); all sweep-type queues are empty; it succeeds if and only if a round was open, a sweep queue was not empty, or the mark queue was empty at the start |
| `Tables.InsertContents` | src/table/table.c:53-88 | inserting an element with a new key adds exactly that binding to the table seen as a map |
| `Tables.ReplaceContents` | src/table/table.c:53-88 | replacing an element changes exactly its binding |
| `Tables.DeleteContents` | src/table/table.c:104-121 | deleting an element removes exactly its binding |
| `Capi.HandlesSafe` | src/capi/capi.c:587-751 | after any calls, crashes, clean-ups and slices, each table handle of a live process has its own entry in that process's root table, the root table is a collector root, and the named table has not been freed |
| `Capi.CallKeeps` | src/capi/capi.c:545-751 | every call of a process, crash, clean-up or slice keeps the handle invariant |
| `Capi.CallsKeep` | src/capi/capi.c:545-751 | the handle invariant holds after every sequence of calls |
| `Capi.BootInv` | src/capi/capi.c:318-355 | the state with only the global root, and no process, satisfies the handle invariant |
| `Capi.StartKeeps` | src/capi/capi.c:358-426 | starting a process with a new empty root table, which becomes a root, keeps the invariant; without room in the root array no process is added |
| `Capi.CopyOutKeeps` | src/capi/capi.c:595-661 | copying a table value out adds exactly the entry for that table to the process's root table and the handle that names it, changes no other table or process, and succeeds for a fresh handle address |
| `Capi.NewByProcessKeeps` | src/capi/capi.c:680-701 | the new handle names the new, empty table, which is linked from the process's root table before anything can collect it; nothing else changes |
| `Capi.FetchKeeps` | src/capi/capi.c:728-751 | the new handle names exactly the table that the element holds; for a scalar, or with ST_NOT_FOUND exactly when there is no such element, the world is unchanged |
| `Capi.GetKeeps` | src/capi/capi.c:728-751 | in terms of the table as a map: a key bound to a table gives ST_OK and a handle that names that table; a key bound to a scalar gives ST_OK and no change; any other key gives ST_NOT_FOUND and no change |
| `Capi.GrootKeeps` | src/capi/capi.c:664-677 | the new handle names the global root, and nothing else changes |
| `Capi.CrashKeeps` | src/capi/capi.c:199-205 | a crash only makes its process not alive; its root table and handles stay until it is cleaned |
| `Capi.FreeKeeps` | src/capi/capi.c:705-724 | freeing a handle removes exactly that handle and its entry, or ST_NOT_FOUND and no change when there is none |
| `Capi.StoreKeeps` | src/capi/capi.c:546-566 | the key of the held table is bound to the value or to the held table: with force always, without it ST_EXISTED and no change exactly when the key is bound; no other table or process changes |
| `Capi.DropKeeps` | src/capi/capi.c:570-584 | exactly the key's binding goes from the held table, or ST_NOT_FOUND exactly when there is none; no other table or process changes |
| `Capi.CleanKeeps` | src/capi/capi.c:100-118 | the process goes; its root table is empty, no root, out of the roots' reach and in the sweep queue with every table it referred to; all other tables, roots and processes are as before |
| `Capi.CleanDeadProots` | src/capi/capi.c:182-225 | live processes other than the caller stay, with their handles and root tables; the caller goes only on request; with max_num 0 every dead process goes; otherwise the number cleaned is the smaller of max_num and the number that may go, and those gone come before those left in list order; root tables given up are empty, no roots and in the sweep queue |
| `CapiReclaim.RootReclaimed` | src/capi/capi.c:100-225 | whenever a process is cleaned, two undisturbed rounds free its root table, and every table it referred to that the remaining roots do not reach |
| `CapiReclaim.ProcessReclaimed` | src/capi/capi.c:100-225 | cleaned between rounds, one undisturbed round is enough and exact: of all that its root table led to, the tables that stay are those the remaining roots reach |
| `TableIter.NearestIsNearest` | src/table/table.c:472-504 | the start element lies on the asked side of the key, and none on that side is nearer; there is none only if no element lies there |
| `TreeTables.TreeTable.ForEach` | src/table/table.c:472-537 | starting at st_rbtree_left_most or st_rbtree_search and following st_rbtree_get_next until NULL on the linked cells yields every element from the start on, once, in key order; from the leftmost, all elements |
| `TreeTables.TreeTable.IterInit` | src/table/table.c:472-503 | the node found stands at the position of the nearest element on the asked side, or of the first element for the leftmost |
| `TreeTables.TreeTable.IterNext` | src/table/table.c:507-537 | the cursor on the tree yields what the modelled iterator yields and moves as it does; ST_TABLE_MODIFIED without following the stale node |
| `TreeTables.SearchIsNearest` | src/table/table.c:489-494 | what a search of the tree finds is the nearest element of the ordered sequence |
| `TreeTables.TreeTable.AddElement` | src/table/table.c:53-88 | on the tree: an element with a new key is inserted at its rank; an existing one is kept, or with force replaced in its place; the version moves exactly with the elements |
| `TreeTables.TreeTable.RemoveElement` | src/table/table.c:104-121 | on the tree: exactly the element with the key goes and its node is reset, or ST_NOT_FOUND and nothing changes |
| `TreeTables.TreeTable.Get` | src/table/table.c:451-469 | the value of the element with the key, or ST_NOT_FOUND exactly when there is none |
| `TreeTables.TreeTable.NewElement` | src/table/table.c:11-45 | a new element with reset links, not yet in the table |
| `TableIter.StepCounts` | src/table/table.c:227-448 | no step lowers a table's version, and the version stays only if the elements stay |
| `TableIter.RunCounts` | src/table/table.c:227-448 | the same over every run the table survives |
| `TableIter.StaleIterator` | src/table/table.c:507-536 | after any run an iterator reports ST_TABLE_MODIFIED if the elements changed, and otherwise yields exactly the element it would have yielded |
| `BTrees.BTree.Add` | src/btree/btree.c:48-99 | one pass from the root with pre-emptive splits inserts the entry after its equals and keeps shape, order and count |
| `BTrees.BTree.Del` | src/btree/btree.c:106-242 | one pass from the root removes one matching entry and reports it, or reports that none matches and keeps the contents; shape, order and count are kept; inside the loop every node entered below the root holds more than the minimum, as the code asserts |
| `BTrees.BTree.Search` | src/btree/btree.c:244-278 | the result is the first or last match of a linear scan of the contents, or none exactly when nothing matches |
| `BTrees.BTree.constructor` | src/btree/btree.c:5-28 | an empty valid tree |
| `BTrees.BinsearchFirst` | src/btree/btree.c:512-534 | the result is one less than the number of entries before the first match |
| `BTrees.BinsearchLast` | src/btree/btree.c:537-563 | the result is one less than the number of entries not after the last match |
| `BTrees.Binsearch` | src/btree/btree.c:467-509 | the index of a match in the node or -1, and the child to descend to |
| `BTrees.DeleteMin` | src/btree/btree.c:622-667 | the loop down the left edge removes the smallest entry |
| `BTrees.Iterator.Next` | src/btree/btree.c:293-340 | each step yields the first of the entries still to come and leaves the others; NULL exactly when none is left |
| `BTrees.Collect` | src/btree/btree.c:281-340 | iterating to the end yields the whole in-order sequence once |
| `BTreeAdd.AddShape` | src/btree/btree.c:48-99 | adding keeps uniform leaf depth and the key bounds of every node |
| `BTreeAdd.AddFlat` | src/btree/btree.c:48-99 | adding inserts the entry into the in-order sequence at its place among equals |
| `BTreeAdd.LtIsAbove` | src/btree/btree.c:48-99 | the comparison used when adding agrees with the search order even for the value that stands for any value |
| `BTreeOps.SplitShape` | src/btree/btree.c:369-418 | splitting a full child keeps the shape and leaves both halves at the minimum |
| `BTreeFlat.FlatSplit` | src/btree/btree.c:369-418 | splitting keeps the in-order sequence |
| `BTreeFlat.FlatMerge` | src/btree/btree.c:566-619 | merging keeps the in-order sequence |
| `BTreeFlat.FlatRotateLeft` | src/btree/btree.c:683-746 | rotating left keeps the in-order sequence |
| `BTreeFlat.FlatRotateRight` | src/btree/btree.c:749-794 | rotating right keeps the in-order sequence |
| `BTreeCells.Cell.ShiftRight` | src/btree/btree.c:822-841 | the loops move the entries from a place on, and the children right of them, one place right |
| `BTreeCells.Cell.ShiftLeft` | src/btree/btree.c:796-819 | the loops remove one entry and the child right of it |
| `BTreeCells.Cell.AddToNode` | src/btree/btree.c:342-366 | the arrays gain one entry and the child right of it |
| `BTreeCells.SplitChild` | src/btree/btree.c:369-418 | on the arrays of parent, child and a new cell: the child keeps what is left of its middle entry, the new cell holds what is right of it, and the parent gains the entry and the cell |
| `BTreeCells.Merge` | src/btree/btree.c:565-619 | on the arrays: the left child takes over the entry between and the whole right child, and the parent loses that entry and the right child |
| `BTreeCells.RotateLeft` | src/btree/btree.c:682-746 | on the arrays: one entry goes down left, one comes up from the right, and the child between changes sides; refused exactly when the code refuses, and then nothing changes |
| `BTreeCells.RotateRight` | src/btree/btree.c:748-793 | on the arrays: one entry goes down right, one comes up from the left, and the child between changes sides; refused exactly when the code refuses, and then nothing changes |
| `BTreeCells.ChildMeans` | src/btree/btree.c:369-418 | joining and cutting the arrays of a child stands for joining and cutting its node |
| `BTreeCells.SplitMeans` | src/btree/btree.c:369-418 | what splitting leaves in the arrays stands for the node that the model's split gives |
| `BTreeCells.MergeMeans` | src/btree/btree.c:565-619 | what merging leaves in the arrays stands for the node that the model's merge gives |
| `BTreeCells.RotateLeftMeans` | src/btree/btree.c:682-746 | what rotating left leaves in the arrays stands for the node that the model's rotation gives |
| `BTreeCells.RotateRightMeans` | src/btree/btree.c:748-793 | what rotating right leaves in the arrays stands for the node that the model's rotation gives |
| `BTreeDel.NeighbourRich` | src/btree/btree.c:155-172 | when neither merging nor a left rotation is possible, the right rotation that the code asserts succeeds |
| `BTreeDel.RefillReady` | src/btree/btree.c:149-175 | before descending, the child has more than the minimum of keys and the node keeps its shape and sequence |
| `BTreeDel.PushDownReady` | src/btree/btree.c:176-218 | a found entry is either replaced by its successor or pushed into a child with more than the minimum of keys |
| `BTreeDel.DelMinCorrect` | src/btree/btree.c:622-667 | removing the smallest entry keeps the shape and returns the head of the sequence |
| `BTreeDel.DelCorrect` | src/btree/btree.c:106-242 | for every valid tree, level by level: exactly one matching entry is gone and reported, or none matches and nothing changed; the shape is kept |
| `BTreeSearch.SearchScans` | src/btree/btree.c:244-278 | searching agrees with scanning the in-order sequence |
| `BTreeSearch.HeightBound` | src/btree/btree.c:30-46 | n entries and level l satisfy n + 1 >= t^l, even with an empty root above the leaves |
| `BTreeSearch.LevelFits` | src/btree/btree.h:38-40 | with fewer than 2^30 entries the level is inside the iterator's arrays |
| `RbTrees.RbTree.Insert` | src/rbtree/rbtree.c:165-231 | the in-order sequence gains exactly the node, after all its equals; with equals forbidden and present it reports the equal node and changes nothing; the linked cells stay a red-black tree with consistent parent links, and cells outside it are untouched |
| `RbTrees.RbTree.Delete` | src/rbtree/rbtree.c:360-441 | the in-order sequence loses exactly the node, whose links are reset; the linked cells stay a red-black tree |
| `RbTrees.RbTree.Search` | src/rbtree/rbtree.c:447-491 | for each expected side the node found is the nearest one a scan of the ordered sequence finds, or an equal one where accepted; NULL exactly when there is none |
| `RbTrees.RbTree.GetNext` | src/rbtree/rbtree.c:494-526 | the in-order successor, NULL after the last node and for a node in no tree |
| `RbTrees.RbTree.Replace` | src/rbtree/rbtree.c:528-577 | exactly the replaced position of the sequence changes; each refusal and its code; nothing changes when refused |
| `RbTrees.RbTree.LeftMost` | src/rbtree/rbtree.c:17-32 | the first node of the sequence or NULL |
| `RbTrees.RbTree.RightMost` | src/rbtree/rbtree.c:34-49 | the last node of the sequence or NULL |
| `RbTrees.RbTree.constructor` | src/rbtree/rbtree.c:3-15 | an empty tree with a black sentinel |
| `RbTrees.RbTree.Rotate` | src/rbtree/rbtree.c:51-111 | the pointer writes rotate the subtree in place, keep everything above it, and touch no other cell |
| `RbTrees.RbTree.Descent` | src/rbtree/rbtree.c:130-153 | the place found comes after all nodes with an equal or smaller key and before all larger ones |
| `RbTrees.RbTree.InsertStep` | src/rbtree/rbtree.c:184-226 | one turn of the insert fixup moves the only possible red pair up or removes it, keeps black heights and the sequence, and shortens the path to the root |
| `RbTrees.RbTree.InsertFix` | src/rbtree/rbtree.c:182-230 | the insert fixup ends with a red-black tree over the same sequence |
| `RbTrees.RbTree.UnlinkOne` | src/rbtree/rbtree.c:249-288 | a node with at most one child leaves the tree; the child either fits or is short of exactly one black node |
| `RbTrees.RbTree.UnlinkTwo` | src/rbtree/rbtree.c:258-357 | the successor takes the node's place, links and colour; the hole it leaves fits or is short of exactly one black node |
| `RbTrees.RbTree.DeleteStep` | src/rbtree/rbtree.c:376-436 | one turn of the delete fixup keeps the sequence and leaves a red node, or one closer to the root, short of one black node |
| `RbTrees.RbTree.DeleteFix` | src/rbtree/rbtree.c:374-440 | the delete fixup ends with a red-black tree over the same sequence |
| `RbShape.RisingLift` | src/rbtree/rbtree.c:189-193 | recolouring a red parent and uncle keeps black heights and moves the red node up two levels |
| `RbShape.RisingHoist` | src/rbtree/rbtree.c:201-203 | the last rotation of an insertion keeps black heights and removes the red pair |
| `RbShape.ShortSettle` | src/rbtree/rbtree.c:400-404 | the last rotation of a deletion restores all black heights without a red pair |
| `RbShape.LevelsBound` | src/rbtree/rbtree.c:165-441 | a red-black tree of n nodes and h levels satisfies 2^h <= (n + 1)^2 |
| `RbHeap.RotateAt` | src/rbtree/rbtree.c:51-111 | the cells a rotation writes represent the rotated tree below the same path |
| `RbSplice.RenameAt` | src/rbtree/rbtree.c:551-572 | with a node's cell copied and the links to it redirected, the new node stands in its place |
| `PagePool.Pool.Alloc` | src/pagepool/pagepool.c:320-360 | served from a smallest sufficient free run, the last one in the ring of its length; a new region only when no free run suffices, out of memory exactly when no region is left either; exactly cnt pages become used, as one new used run; runs still tile every region, no two neighbours are both free, and the index holds each free run once under its length |
| `PagePool.Pool.AddRegion` | src/pagepool/pagepool.c:10-28 | a region of the store joins the sorted array, whose regions never overlap and which always has room |
| `PagePool.Pool.RemoveRegion` | src/pagepool/pagepool.c:30-46 | exactly this region leaves the array and goes back to the store |
| `Regions.RegionPool.Alloc` | src/region/region.c:275-299 | hands out the first region that is not handed out; refused exactly when every region is |
| `Regions.RegionPool.Free` | src/region/region.c:302-352 | exactly the region that starts at the address is taken back; refused for any other address |
| `Regions.HeldApart` | src/region/region.c:264-272 | two regions handed out do not overlap |
| `PagePool.Pool.Free` | src/pagepool/pagepool.c:362-392 | refused for anything but the first page of a used run; otherwise the run merges with its free neighbours, exactly its pages become free, no other used run is touched, and the region is given back exactly when nothing else of it is used |
| `PagePool.Pool.Merge` | src/pagepool/pagepool.c:161-190 | the merged run starts and ends where its free neighbours do, all its pages carry the new tags, and exactly the neighbours leave the index |
| `PagePool.Neighbours` | src/pagepool/pagepool.c:141-159 | the tags of the pages around a run name its neighbours |
| `PagePool.Pool.Take` | src/pagepool/pagepool.c:218-248 | the run taken is split, its remainder indexed, and the pool stays valid |
| `PagePool.SplitPages` | src/pagepool/pagepool.c:192-216 | the loops retag the pages as a used run followed by a free run |
| `PagePool.MergePages` | src/pagepool/pagepool.c:181-187 | the loop retags the pages as one free run |
| `PagePool.InitRegion` | src/pagepool/pagepool.c:87-100 | a new region is one free run |
| `PagePool.SmallestFit` | src/pagepool/pagepool.c:224-228 | the smallest indexed length that suffices, or none exactly when none does |
| `PagePool.SizesAreFree` | src/pagepool/pagepool.c:102-139 | the lengths in the tree are exactly the lengths of free runs |
| `PagePool.AddSpotOk` | src/pagepool/pagepool.c:102-114 | adding a run to the tree of rings adds exactly that entry |
| `PagePool.RemoveSpotOk` | src/pagepool/pagepool.c:116-139 | removing a run from the tree of rings removes exactly that entry and leaves no empty ring |
| `FreeTrees.FreeTree.Add` | src/pagepool/pagepool.c:102-114 | on the tree cells: a run of a new length is inserted, a run of a known length joins the ring of the one in the tree, and the index gains exactly that entry |
| `FreeTrees.FreeTree.Remove` | src/pagepool/pagepool.c:116-139 | on the tree cells: whichever of the three ways a run is held, the index loses exactly that entry and the run's node is reset |
| `FreeTrees.FreeTree.Unhang` | src/pagepool/pagepool.c:119-121 | a run that hangs in a ring leaves the ring, and the tree is untouched |
| `FreeTrees.FreeTree.Uproot` | src/pagepool/pagepool.c:123-125 | the only run of its length leaves the tree |
| `FreeTrees.FreeTree.Succeed` | src/pagepool/pagepool.c:127-138 | a run in the tree is replaced there by the next of its ring, which st_rbtree_replace accepts, and the others of the ring hang off it |
| `FreeTrees.FreeTree.TakeFit` | src/pagepool/pagepool.c:218-237 | the search of the tree finds the smallest length that suffices, and the last run of its ring is taken; none exactly when no length suffices |
| `PagePool.FreedIndex` | src/pagepool/pagepool.c:161-190 | the free runs after merging are the merged run and the others |
| `PagePool.PoolConserves` | src/pagepool/pagepool.c:320-392 | free plus used pages equal regions times pages per region |
| `PageAddr.FitsExactly` | src/pagepool/pagepool.c:262-268 | the data pages lie inside the region if and only if cutting the region down to whole pages would not lose a page |
| `PageAddr.WholeRegionFits` | src/pagepool/pagepool.c:262-268 | for a region that is a multiple of the page size all data pages fit |
| `Masks.MaskAlignExactly` | src/inc/util.h:49-53 | clearing the low bits rounds every number up to whole pages if and only if the page size is a power of two |
| `Masks.FitsMasked` | src/pagepool/pagepool.c:262-268 | for a power of two the offset as the code masks it leaves room for the data pages under exactly the same condition |
| `Masks.PageBaseExactly` | src/slab/slab.h:21-22 | clearing the low bits of every address gives its page if and only if the page size is a power of two |
| `Masks.MaskMisses` | src/pagepool/pagepool.c:255-257 | a page size of 1536 is accepted, and the mask sends address 1536, a page, to 512 |
| `PageAddr.PartialRegionTooShort` | src/pagepool/pagepool.c:262-268 | with data pages of 8192 bytes, records of 144 and a region of three system pages of 4096, one page is counted and does not fit |
| `PageAddr.GetRegion` | src/pagepool/pagepool.c:48-78 | the registered region that holds the address, or ST_NOT_FOUND exactly when none does |
| `PageAddr.AddrToPage` | src/pagepool/pagepool.c:409-436 | each result with its exact condition; on success the page's address is the given address, no other page starts there, and the record answered is one of the region's if and only if the address is below the end of its data pages |
| `PageAddr.RoundTrip` | src/pagepool/pagepool.c:394-436 | for every page of every registered region, address to page undoes page to address |
| `PageAddr.DataApart` | src/pagepool/pagepool.c:394-407 | data pages lie after the records, inside their region and apart from each other |
| `PageAddr.SlackExactly` | src/pagepool/pagepool.c:426-436 | a registered region has addresses that are answered with a record it does not have if and only if its data pages end before the region does |
| `PageAddr.SlackAddress` | src/pagepool/pagepool.c:409-436 | with 4096-byte pages and a region of 30 pages, which holds 28, the last page is answered with a 29th record |
| `PageMemory.RunsApart` | src/pagepool/pagepool.c:394-407 | two runs of a valid pool never share memory, and each lies inside its region |
| `PageMemory.UsedApart` | src/pagepool/pagepool.c:394-407 | two used runs, whatever their regions, never share memory |
| `Slabs.SlabPool.Alloc` | src/slab/slab.c:250-317 | exactly one more object is in use, in the first free slot of the last partial slab, or of a new slab on pages from the page pool exactly when the size group has no partial one; the slot is at least as large as asked; the page pool has one more used run for a new slab and is otherwise unchanged; each refusal and its code, those of the page pool included; lists, bitmaps, counters, pages and page links stay consistent |
| `Slabs.SlabPool.AllocPages` | src/slab/slab.c:203-226 | the run that the page pool newly uses meets no other slab, its pages are linked to its first page, and the new slab joins its group |
| `Slabs.SlabPool.Free` | src/slab/slab.c:319-440 | succeeds exactly for the address of an object in use whose slab lies on a page boundary, and answers ST_AGAIN exactly for such an object not in use; every other refusal has its exact code; that object alone stops being in use; a slab leaves, and the page pool has its run back, exactly when its last object goes; otherwise nothing changes |
| `Slabs.SlabPool.Locate` | src/slab/slab.c:320-356 | the look-up through the page of the address and its link finds a slot exactly for the slots, in use or not, of slabs on a page boundary, and gives that slot; ST_NOT_FOUND, ST_OUT_OF_RANGE and ST_ARG_INVALID exactly by region, page records, page of no slab and position |
| `Slabs.IndexOf` | src/slab/slab.c:346-359 | the number of the object that starts at the offset, or ST_ARG_INVALID exactly when none does |
| `Slabs.AllAligned` | src/slab/slab.h:21-22 | when the memory block and the regions are whole pages every slab lies on a page boundary |
| `Slabs.AlignedExactly` | src/pagepool/pagepool.c:394-407 | a slab lies on a page boundary if and only if its region does |
| `Slabs.RegionsAligned` | src/region/region.c:264-272 | all regions lie on page boundaries if and only if the memory block does and, with more than one region, regions are whole pages |
| `Slabs.Misaligned` | src/slab/slab.c:414-440 | with pages of 8192 bytes on a block that starts at 4096, an object that was just allocated cannot be freed |
| `Slabs.LookUp` | src/slab/slab.c:415-440 | the look-up of an address leads to a slab exactly when a slab on a page boundary holds the address, and then to that slab |
| `Slabs.SlabPool.Take` | src/slab/slab.c:275-299 | the scan of the bitmap takes the first free slot of a partial slab, and a slab that the scan finds full changes lists |
| `Slabs.IsFull` | src/slab/slab.c:228-237 | the masked scan tells whether every slot is in use |
| `Slabs.IsAllFree` | src/slab/slab.c:239-248 | the masked scan tells whether no slot is in use |
| `Slabs.FindFree` | src/slab/slab.c:284-285 | the scan finds the first slot not in use, and there is one |
| `Slabs.SetLinks` | src/slab/slab.c:182-191 | exactly the pages of the run come to refer to its first page |
| `Slabs.ClearLinks` | src/slab/slab.c:193-201 | exactly the pages of the run lose their reference |
| `Slabs.SlabPool.Give` | src/slab/slab.c:368-412 | a slot in use is freed, a slab without objects is dropped, a slab that was full becomes partial; a slot not in use is refused and nothing changes |
| `Slabs.SlabPool.FreePages` | src/slab/slab.c:386-402 | the pages of a slab that is gone lose their links and go back to the page pool, whose used runs are one less |
| `Slabs.SlabPool.AddSlab` | src/slab/slab.c:203-226 | a new slab without objects joins the partial list |
| `Slabs.TakeKeeps` | src/slab/slab.c:290-299 | taking a slot keeps lists, counters and disjoint runs in every group |
| `Slabs.GiveKeeps` | src/slab/slab.c:379-407 | freeing a slot keeps lists, counters and disjoint runs in every group, whether or not the slab goes |
| `Slabs.SlotOf` | src/slab/slab.c:336-366 | in the run of a slab on a page boundary only that slab can have an object at the address |
| `SlabMemory.ObjectsApart` | src/slab/slab.c:284-290 | objects in use never overlap, whatever their slabs, size groups and regions, and lie inside a region handed out to the page pool; that slabs lie on different runs is proved, not assumed |
| `Slabs.SlabPool.ObjectsApart` | src/slab/slab.c:284-290 | the same for any valid slab pool, in terms of its own fields |
| `SlabMemory.BackedApart` | src/slab/slab.c:203-226 | slabs never overlap, because they lie on different used runs of the page pool |
| `SlabMemory.MoreMemory` | src/slab/slab.c:203-226 | a run that the page pool newly uses meets no existing slab, and all pages of slabs stay linked to their slab |
| `SlabMemory.LessMemory` | src/slab/slab.c:386-402 | giving a slab's run back leaves every other slab on its run and its pages linked |
| `SlabModel.SizeClass` | src/slab/slab.c:24-45 | the group chosen is the smallest whose objects hold the size, and the huge group exactly above the largest class |
| `Bitmaps.AreAll` | src/bitmap/bitmap.c:75-117 | the masked word loop answers whether all bits below the limit have the value |
| `Bitmaps.Equal` | src/bitmap/bitmap.c:119-140 | the masked word loop answers whether two bitmaps agree on all bits below the limit |
| `Bitmaps.FindNextBit` | src/bitmap/bitmap.c:142-179 | the first bit with the value from start up to end, none exactly when there is none, an error exactly for an empty range |
| `Bitmaps.Get` | src/bitmap/bitmap.c:45-47 | the bit |
| `Bitmaps.Set` | src/bitmap/bitmap.c:49-60 | that bit becomes set, no other changes, and the old value is returned |
| `Bitmaps.Clear` | src/bitmap/bitmap.c:62-73 | that bit becomes clear, no other changes, and the old value is returned |
| `Bitmaps.MaskBits` | src/bitmap/bitmap.c:13-18 | the mask selects exactly the bits from start up to end |
| `Bitmaps.WordBitsZero` | src/bitmap/bitmap.c:20-35 | a masked word is zero exactly when none of its bits has the wanted value |
| `SparseArrays.SparseArray.constructor` | src/sparse/sparse.c:38-95 | for a strictly increasing index list below the capacity, the array holds exactly those indexes and elements |
| `SparseArrays.SparseArray.Append` | src/sparse/sparse.c:3-33 | the index and element are appended, and every word's offset plus its bits before a position stays the rank of that position |
| `SparseArrays.SparseArray.Get` | src/sparse/sparse.c:97-115 | element j for index j of the list, none for any other index below the capacity |
| `SparseArrays.AppendIndexed` | src/sparse/sparse.c:13-31 | appending keeps bits equal to indexes and offsets plus bit counts equal to ranks |
| `SparseArrays.CountBeforeIs` | src/inc/bit.h:45-57 | shifting the lower bits to the top and counting counts exactly the bits before the position |

## Left out

- Locks, lock order and crashes inside an operation: every public operation is one step, and a process is alive or not.
- Clocks and the formulas that turn them into budgets: only that budgets are at least 1 is kept (src/gc/gc.c:190-193).
- Eventual collection of all garbage in runs with mutators: it does not hold, because a child already marked is skipped when its parent is condemned; quiet rounds are exact instead, and two of them free what was dropped (`GcReclaim.SweptReclaimed`).
- Wrap-around of the 64-bit round and version counters, of the 32-bit bit indexes, and of the 16-bit run length (pages per region are taken to be at most 32767).
- Failing system calls, shared-memory set-up, fork, and the error paths they cause, such as a slab whose pages cannot be given back.
- NULL arguments, except that freeing a slab object refuses the null page.
- Table keys and values as bytes: keys are integers in order, values are numbers or table references.
- Intrusive lists and the arrays of roots and regions: they are sequences, strictly ascending where the code searches them.
- Capi.StartKeeps: when the root array is full the code's error path asserts on a root that was never added; the model reports out of memory and leaves the new table in the nursery.
- The collector's model has a table's elements as a sorted sequence; that the red-black tree changes as that sequence does is proved for one table (`TreeTable`), not carried through the collector's state.
- B-tree nodes as memory: the node operations are proved on arrays one node at a time (`BTreeCell`), while in the descent nodes are values and the path is kept, so sharing of cells over a whole tree and the release of nodes are not captured; the read of a leaf's missing child is modelled through the level; the unfinished st_btu64_pop and the debug dumps are absent.
- BTrees.BTree.Del: removes some matching entry, not necessarily the in-order first or last one, because the code stops at the first node that holds a match.
- BTrees.Iterator.Next: nothing is said of calls after the end, where the code reads a place of its stack that it never set.
- The red-black comparison function is an integer key per node; the two mirrored halves of each fixup are one method with a side.
- PagePool.SmallestFit: scans the set of lengths of the pool's map of rings; `FreeTrees.FreeTree.TakeFit` finds the same length by searching the tree.
- PagePool.AddSpotOk: is about that map; `FreeTrees.FreeTree.Add` makes the same change on tree cells and rings, with a tree node per run and length.
- PagePool.RemoveSpotOk: is about that map; `FreeTrees.FreeTree.Remove` makes the same change on tree cells and rings.
- TableIter.NearestIsNearest: is about the ordered sequence; `TreeTables.SearchIsNearest` ties it to the tree.
- PagePool.Pool.Free: a page of no region is not considered, since the code follows the page's own region pointer.
- PageAddr.AddrToPage: page sizes are any positive number and masking is written as rounding, which is the same exactly for powers of two (`Masks.MaskAlignExactly`); what the code does with other page sizes is not modelled further.
- Slabs.SlabPool.Free: an address in the slack of a region is answered as a page of no slab; the code reads the bytes behind the records there.
- Slabs.SlabPool.constructor: asks for a layout whose data pages fit in a region, which holds for regions of whole pages; `PageAddr.FitsExactly` says when others do.
- SparseArrays.SparseArray.constructor: the packed memory layout, alignment and element bytes are not modelled, and index lists that are not strictly increasing are excluded, as the code relies on that order.
- The array, string, binary, version, robust-lock and hash modules, and the Lua binding: easier than the rest.
