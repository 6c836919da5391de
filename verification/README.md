# Kogata in Dafny

Kogata is a small operating system that also ships a Lua 5.3 interpreter. This project
models its most intricate parts and proves what they promise: two parts of Lua, three
memory allocators, two containers, and the kernel's scheduler, channels and worker queue.
Each part follows the form of its source. What the source does step by step on lists,
marks and arrays is a class with methods and loops; each method is proved against
functions and predicates over values, and the lemmas say what follows from these over
whole runs.

| files | part |
|---|---|
| `LuaHeap`, `LuaReach`, `LuaGcState`, `LuaAtomic`, `LuaClear`, `LuaMutator`, `LuaBarrier`, `LuaCycle`, `LuaEmpties`, `LuaRun`, `LuaFullCycle`, `LuaCollector`, `LuaSchedule`, `LuaWitnesses` | the incremental garbage collector: an object graph, colours, gray lists and phases; the collector's methods; program steps with their barriers; safety over all interleavings |
| `LuaOpcodes`, `LuaJumpLists`, `LuaFragments`, `LuaCodeLaws`, `LuaFrames`, `LuaCode` | code generation for `and`, `or`, `not` and comparisons: a machine for the opcodes, jump lists threaded through the code, the meaning of an unfinished piece of code, and the generator itself |
| `RegionLists`, `RegionSets`, `RegionState`, `RegionOutcome`, `RegionAllocator` | the allocator of address ranges, with its two free lists, skip links and descriptors allocated from itself |
| `SlabState`, `SlabSteps`, `SlabBlocks`, `SlabAllocator` | the slab allocator on top of a page source |
| `FrameAllocator` | the bitmap of physical frames |
| `TreeItems`, `TreeHeights`, `OrderedTree` | the ordered tree of linked nodes and the heights it records |
| `HashTable` | the chained hash table |
| `Scheduler`, `Channel` | threads, the ready queue and the waiters; the byte ring between blocking readers and writers |
| `WorkerQueue` | timed tasks in the ordered tree |
| `Options` | a value or none |

`dafny verify dfyconfig.toml` checks everything.

## Main results

- Collector: in every interleaving of program steps and collector steps no strongly
  reachable object is freed and no reference dangles (`LuaRun.NeverFreed`,
  `LuaRun.NothingDangles`), as long as the atomic steps meet a condition that is exact
  (`LuaCycle.AtomicExact`); every program step keeps the invariant without any condition
  (`LuaBarrier.MutateKeeps`); the tri-colour invariant holds at every step boundary
  (`LuaRun.TriColour`); what the atomic step marks is the least fixed point over the roots
  (`LuaCollector.Collector.AtomicMarkAll`); a full collection, from any state, leaves
  exactly what was reachable and in the tables that stay exactly the elements and entries
  whose parts were (`LuaCollector.Collector.FullGc`); reachable means reachable by chains
  of references (`LuaRun.ReachedByChains`); the methods of the collector, driven by any
  program, go through such runs (`LuaSchedule.Drive`).
- Code generator: for every expression of the model, from any registers, the code emitted
  yields the value that the Lua 5.3 manual gives the expression in sections 3.4.4 and
  3.4.5 (`LuaCode.FuncState.ReturnExpr`, `LuaCode.FuncState.StoreLocal`); these rules, taken
  operator by operator, give each expression one value (`LuaFragments.EvalGives`).
- Region allocator: in every run the regions tile the range and no two free ones touch
  (`RegionOutcome.RunTiled`); skip links find what a full scan finds
  (`RegionOutcome.FirstFitFits`); an allocation and its release cancel
  (`RegionOutcome.AllocThenFree`); two descriptors are always left over, and it is known
  exactly when an allocation fails (`RegionAllocator.Allocator.Alloc`).
- Slab allocator: blocks never overlap and keep their contents through every operation, and
  an allocation fails exactly when the page source refuses it memory (`Alloc`, `Free`,
  `Reallocate` in `SlabAllocator.Slab`); destruction returns every page once and reads no
  record after its page went (`Destroy`).
- Frames: a search from the cursor gives the frame that a search from the beginning gives.
- Tree and table: the tree is a sorted sequence, whatever its recorded heights; the table
  is a map keyed by the equality function, and keeps its size law.
- Kernel: the lists of threads are acyclic and every thread is where its state says; bytes
  leave a channel in the order they entered, each pass moves as many as it can, and no
  wakeup is lost; no task is lost, given twice or given early, and it is known exactly which ticks past a due time fail to wake a
  worker.

## Where the code does not do what is expected of it

- An all-weak table visited while the collector propagates is parked in `allweak`, gray
  and never visited again (src/lib/lua/lgc.c:464-465). Its gray colour disables the
  barrier (src/lib/lua/lgc.c:155-164), so a metatable it gets later in the same phase may
  stay unmarked, and if its mode changes it is still cleared as an all-weak table. Let K be
  the least set over the roots and the marked objects that is closed under the references
  the collector still follows, where a parked table counts as all-weak without metatable.
  `LuaCycle.AtomicExact`: after the atomic step exactly K is live; no live object has a
  dangling reference if and only if the metatable of every parked table is in K; nothing
  strongly reachable is lost if and only if what each reachable parked table holds strongly,
  by its present mode, is in K. `LuaCycle.MetasSuffice` and `LuaCycle.StrongSuffices` give
  simpler forms, `LuaRun.SparingIsRun` one for stores. `LuaWitnesses.LoseMetatable` is
  about the collector's own atomic step from a state where it fails, one store after a state
  where it does not (`LuaWitnesses.StoredHarmless`). A full collection is not affected: it starts
  its mark phase anew and parks tables itself.
- `clearkeys` and `clearvalues` treat only entries that have a value
  (src/lib/lua/lgc.c:639-674), and nothing visits the entries of an all-weak table, so an
  empty entry of such a table may keep a key that is freed. After a full collection it does
  if and only if it was empty before and its key was not reachable
  (`LuaCollector.Collector.FullGc`, `LuaEmpties.FreedKeys`). `LuaWitnesses.LoseKey` shows it
  on a concrete state and then takes the metatable away: `removeentry`
  (src/lib/lua/lgc.c:125-129) reads the mark of a freed key at the next traversal.
- `atomic` asserts that the lists `ephemeron` and `weak` are empty (src/lib/lua/lgc.c:984),
  but the `propagateall` before it (src/lib/lua/lgc.c:1061) may fill them. The assertion
  holds if nothing was gray, and fails if a gray table has to be cleared whatever else gets
  marked (`LuaCollector.Collector.PropagateLate`); in between it depends on the order of
  visits. `LuaWitnesses.FailAssertion` is a case in which it fails.
- `notify_time_pass` is called from the timer interrupt (src/kernel/core/thread.c:237-239),
  which the mutex of the queue (src/common/libkogata/mutex.c:10-14) does not keep out. A
  tick between `btree_add` and the update of `next_task_time`
  (src/kernel/core/worker.c:86-87) may pass a due time without waking anyone.
  `WorkerQueue.MissedExactly` says exactly when, `WorkerQueue.TickMissed` gives a run, and
  by `WorkerQueue.NoMissedTick` the next tick after the update goes through the workers.
- `btree_equilibrate` rotates a side that is too high without looking at the side's own
  sides (src/common/libkogata/btree.c:101-111): one that is higher on its inner side ends
  up too high on the other side of the root. For real heights the sides differ by one at
  most afterwards if and only if no node rotated is higher on its inner side
  (`TreeHeights.EvenExactly`, `TreeHeights.OneInsertion`); inserting 1, 3 and 2 is a case
  in which they do not (`TreeHeights.LeansIn`, `OrderedTree.LeanIn`).
- The tree's removal does not recompute heights (src/common/libkogata/btree.c:159-164), so
  heights are only shown to be real as long as nothing is removed (`OrderedTree.Insert`);
  rebalancing is shown to end with any positive heights.

## Model

| member | source | states |
|---|---|---|
| `LuaHeap.ReachLeast` | src/lib/lua/lgc.h:14-25 | strong reachability (through ephemeron entries only when the key is reached) lies in every set that holds the roots and is closed under references |
| `LuaHeap.ReachClosed` | src/lib/lua/lgc.h:14-25 | strong reachability is itself such a closed set, so it is the least one |
| `LuaReach.StrongIsHolds` | src/lib/lua/lgc.c:361-562 | what an object keeps alive, reference by reference: a set has all of it exactly if it is closed for that object |
| `LuaReach.ReachByChains` | src/lib/lua/lgc.c:361-562 | where no reference dangles, the least closed set over the roots is what chains of references from the roots lead to, the value of an ephemeron entry only once its key has been reached |
| `LuaAtomic.VisitKeeps` | src/lib/lua/lgc.c:559-600 | one visit inside the atomic step keeps the atomic invariant (colours, lists, every black object's references marked, nothing outside the bound marked) and only advances marking |
| `LuaAtomic.VisitShrinks` | src/lib/lua/lgc.c:559-600 | a visit never adds white objects; if it marks nothing, the rest of the gray list is as long as before |
| `LuaAtomic.RoundStart` | src/lib/lua/lgc.c:608-623 | taking the whole ephemeron list for a new round keeps the invariant, and every table taken is still waiting |
| `LuaAtomic.ConvergedStep` | src/lib/lua/lgc.c:608-623 | a table traversed without marking anything leaves the round converged, whether or not it is linked again |
| `LuaAtomic.ConvergedStrings` | src/lib/lua/lgc.c:139-146 | marking strings while weak tables are examined cannot undo convergence |
| `LuaClear.ConvergedEphemerons` | src/lib/lua/lgc.c:608-623 | at the end of convergence no ephemeron table that is marked, listed or not, has an entry with a marked key and a white value (parked tables apart) |
| `LuaClear.ConvergedBound` | src/lib/lua/lgc.c:999-1012 | from then on the marked objects with the strings are closed under the references the collector follows, so the second marking pass marks nothing else |
| `LuaClear.LeastBound` | src/lib/lua/lgc.h:14-25 | the least set over roots and marked objects that the collector must follow is itself closed under the references it follows |
| `LuaClear.LeastMarked` | src/lib/lua/lgc.c:979-999 | when marking has converged all of that least set is marked, strings apart |
| `LuaClear.SecondPass` | src/lib/lua/lgc.c:979-1023 | tables that get listed after the first `clearvalues` are all covered: cleared in the first pass, or by the second pass up to the saved list heads |
| `LuaClear.FinalHeld` | src/lib/lua/lgc.c:979-1023 | after both clearing passes, every reference of every marked object, weak ones included, is to a marked object (the metatables of parked tables apart) |
| `LuaClear.TrimmedStrong` | src/lib/lua/lgc.c:639-674 | clearing entries never drops anything that the collector follows |
| `LuaClear.SettledScrubbed` | src/lib/lua/lgc.c:125-129 | after the atomic step's marking, the keys in empty entries of traversed weak tables are marked or dead |
| `LuaClear.LateListed` | src/lib/lua/lgc.c:361-430 | a gray weak table whose array part or unmarkable values need clearing is in `weak` or `ephemeron` when the gray list is empty |
| `LuaClear.LateSettled` | src/lib/lua/lgc.c:361-430 | if both lists are empty then, no weak table visited needs its values cleared |
| `LuaBarrier.MutateKeeps` | src/lib/lua/lgc.c:155-216 | every program step (allocation, store with its barrier, stack store without one, upvalue store, change of metatable or mode, reuse of a dead string) keeps the collector's invariant in every phase |
| `LuaBarrier.MutateSpares` | src/lib/lua/lgc.c:451-470 | a store that leaves a parked table all-weak with a marked metatable, and every other step, leaves all parked tables as the collector parked them |
| `LuaBarrier.BarriersKeep` | src/lib/lua/lgc.c:155-180 | the forward and back barriers repair the one black object that may point to white ones |
| `LuaBarrier.ForwardReady` | src/lib/lua/lgc.c:155-165 | in the middle of a store, `reallymarkobject` finds everything as it needs it |
| `LuaBarrier.BarrierAsserts` | src/lib/lua/lgc.c:155-175 | the assertions of the barriers hold: neither operand is dead, and a black holder exists only while marking or sweeping |
| `LuaBarrier.SweepsHolder` | src/lib/lua/lgc.c:160-164 | outside marking the barrier turns the holder white ahead of the sweep, and this keeps the sweep in order |
| `LuaBarrier.CellKeeps` | src/lib/lua/lgc.c:185-191 | a store to a closed upvalue keeps the invariant for all closures that share it |
| `LuaBarrier.NewKeeps` | src/lib/lua/lgc.c:208-216 | an object created in any phase, with the current white and at the front of `allgc`, keeps the invariant; a sweep under way does not free it |
| `LuaBarrier.InternKeeps` | src/lib/lua/lstring.c:172-181 | a dead string that is used again before the sweep reaches it is live again, and nothing else changes |
| `LuaBarrier.PushAccessible` | src/lib/lua/lgc.c:208-216 | what is created or revived and left on a stack the program can get at, the program can get at |
| `LuaCycle.FreeDead` | src/lib/lua/lgc.c:734-751 | freeing an object with the dead white keeps the sweep invariant and the set of live objects |
| `LuaCycle.WhitenLive` | src/lib/lua/lgc.c:734-751 | whitening a live object moves the sweep on and keeps the set of live objects |
| `LuaCycle.SweepRunKeeps` | src/lib/lua/lgc.c:734-751 | a stretch of the sweep of any length frees dead objects only, whitens live ones, keeps the set of live objects and moves on |
| `LuaCycle.SweepRunCount` | src/lib/lua/lgc.c:734-751 | a stretch of the sweep visits as many objects as asked for, or all that are left |
| `LuaCycle.TurnCount` | src/lib/lua/lgc.c:1026-1038 | a turn on `allgc` visits 80 objects, or, when no more are left, all of these, and then goes on to the next list |
| `LuaCycle.SweptLive` | src/lib/lua/lgc.c:734-751 | sweeping neither makes nor mends a dangling reference of a live object |
| `LuaCycle.PropagateKeeps` | src/lib/lua/lgc.c:1051-1058 | a step of the propagate phase keeps the invariant and parks tables all-weak with a marked metatable |
| `LuaCycle.PropagateShrinks` | src/lib/lua/lgc.c:1051-1058 | each propagate step marks something or shortens the gray list, so the phase ends |
| `LuaCycle.RestartKeeps` | src/lib/lua/lgc.c:337-344 | the start of a cycle establishes the marking invariant with nothing parked |
| `LuaCycle.MarkToAtomic` | src/lib/lua/lgc.c:979-988 | what the propagate phase left (threads and tables in `grayagain`, tables in `allweak`) is what the atomic step starts from |
| `LuaCycle.KeptBounded` | src/lib/lua/lgc.c:451-470 | the least set over the roots and the marked objects that is closed under what the collector still follows is within the allocated objects |
| `LuaCycle.FlippedKept` | src/lib/lua/lgc.c:1013-1020 | after the flip exactly this least set is live |
| `LuaCycle.AtomicExact` | src/lib/lua/lgc.c:1059-1066 | the atomic step, exactly: live afterwards is this least set; no live object has a dangling reference if and only if the metatable of every parked table is in it; nothing strongly reachable is lost if and only if what each reachable parked table holds strongly is in it |
| `LuaCycle.StrongSuffices` | src/lib/lua/lgc.c:451-470 | both conditions hold if the least set has everything that parked tables hold strongly |
| `LuaCycle.MetasSuffice` | src/lib/lua/lgc.c:451-470 | for tables whose mode has not changed the metatable alone decides |
| `LuaCycle.SparedSuffices` | src/lib/lua/lgc.c:451-470 | both conditions hold for tables left as the collector parked them |
| `LuaCycle.StepInv` | src/lib/lua/lgc.c:1042-1094 | every step of the collector keeps the invariant, the atomic one if and only if the metatables of parked tables are in the least set |
| `LuaCycle.StepReach` | src/lib/lua/lgc.c:1042-1094 | every step keeps what is strongly reachable live, the atomic one if and only if its condition holds |
| `LuaCycle.StepFacts` | src/lib/lua/lgc.c:1042-1094 | every step leaves the roots alone, frees dead objects only and at most trims bodies; all but the atomic one leave the live objects and what is reachable |
| `LuaCycle.StepProgress` | src/lib/lua/lgc.c:1042-1094 | every step of a cycle brings it nearer to its end (phase, unmarked objects, what is left to do) |
| `LuaCycle.AbandonStep` | src/lib/lua/lgc.c:1151-1163 | a mark phase abandoned for a full collection frees nothing and changes no object |
| `LuaEmpties.AllocatedSuffices` | src/lib/lua/lgc.c:125-129 | while no sweep is under way the keys of empty entries are live if they are allocated |
| `LuaEmpties.TidyStep` | src/lib/lua/lgc.c:125-129 | outside all-weak tables the keys in empty entries of live tables stay live through every step of a cycle |
| `LuaEmpties.SinceStep` | src/lib/lua/lgc.c:639-674 | through a cycle array elements and entries stay, but for those the atomic step gives up, and it gives up only what is not live afterwards, with a key that stays only if it is live; empty entries stay empty, in all-weak tables as they are |
| `LuaEmpties.CycleCollected` | src/lib/lua/lgc.c:639-674 | after a full collection an array element of a kept table is what it was if that is kept and nil if not, an entry is what it was if both its key and its value are kept and empty if not, and every other object is as it was, prototype caches apart |
| `LuaEmpties.ModesKept` | src/lib/lua/lgc.c:361-470 | so strong tables lose nothing, ephemeron tables only the entries whose keys are not kept, tables with weak values only what is not kept itself |
| `LuaEmpties.FreedKeys` | src/lib/lua/lgc.c:125-129 | after a full collection an empty entry holds a freed key if and only if it was an empty entry of an all-weak table and its key was not reachable |
| `LuaRun.StepSafe` | src/lib/lua/lgc.c:1042-1094 | one step, of the program or the collector, keeps the invariant and everything strongly reachable |
| `LuaRun.RunInv` | src/lib/lua/lgc.h:14-25 | the invariant holds in every state of every interleaving of program and collector steps whose atomic steps meet the exact condition |
| `LuaRun.NeverFreed` | src/lib/lua/lgc.h:14-25 | an object that stays strongly reachable is never freed in any such run |
| `LuaRun.NothingDangles` | src/lib/lua/lgc.c:125-149 | no reference the program can follow, strong or weak, ever points to a freed or dead object |
| `LuaRun.RootsSound` | src/lib/lua/lgc.c:337-344 | in every state of every run the main thread, the running coroutine, the registry and the metatables of basic types are allocated and not dead |
| `LuaRun.FieldsSound` | src/lib/lua/lgc.c:361-562 | in every state of every run whatever a field of an object that is not dead refers to is allocated and not dead, kind of object by kind of object |
| `LuaRun.ReachedByChains` | src/lib/lua/lgc.h:14-25 | in every state of every run strong reachability is reachability by chains of references |
| `LuaRun.TriColour` | src/lib/lua/lgc.h:14-25 | at every boundary of the marking phases no black object points to a white one, no thread is black, and every gray object is in exactly one gray list once |
| `LuaRun.SparingIsRun` | src/lib/lua/lgc.c:451-470 | runs whose stores spare parked tables meet the condition at every atomic step |
| `LuaSchedule.Drive` | src/lib/lua/lgc.c:1042-1172 | the collector's methods, driven by any program in any order, go through such a run, and at the end nothing the program can follow is freed |
| `LuaWitnesses.Reached` | src/lib/lua/lgc.c:451-470 | two ordinary program steps, from a state in order whose modes are those its metatables give, lead to the state below |
| `LuaWitnesses.StoredHarmless` | src/lib/lua/lgc.c:451-470 | after the first of them, which gives a parked table an unmarked metatable, the condition of the atomic step still holds |
| `LuaWitnesses.DroppedUnsafe` | src/lib/lua/lgc.c:451-470 | after the second it does not: what the collector follows does not lead to that metatable |
| `LuaWitnesses.LoseMetatable` | src/lib/lua/lgc.c:979-1023 | from there the collector's own atomic step leaves a live table whose metatable is dead |
| `LuaWitnesses.Forgets` | src/lib/lua/lgc.c:639-674 | two ordinary program steps empty an entry of an all-weak table and forget its key |
| `LuaWitnesses.LoseKey` | src/lib/lua/lgc.c:125-129 | a full collection then frees the key and leaves it in the entry; once the table loses its metatable it is a strong table with a freed key |
| `LuaWitnesses.FailAssertion` | src/lib/lua/lgc.c:984 | a fresh weak table stored in an upvalue before the atomic step leaves a list non-empty that `atomic` asserts to be empty |
| `LuaCollector.Collector.ReallyMark` | src/lib/lua/lgc.c:235-283 | marks the object, its strings and userdata chain, keeps the marking invariant and the bound |
| `LuaCollector.Collector.MarkValue` | src/lib/lua/lgc.c:82-92 | marks a white collectable value, does nothing otherwise |
| `LuaCollector.Collector.RemoveEntry` | src/lib/lua/lgc.c:125-129 | an empty entry with an unmarked key gets a dead key, one with a marked key stays; other entries stay; for a freed key one or the other happens |
| `LuaCollector.Collector.IsCleared` | src/lib/lua/lgc.c:139-146 | true exactly for unmarked collectable values that are not strings; a string is marked instead |
| `LuaCollector.Collector.TraverseWeakValue` | src/lib/lua/lgc.c:361-381 | marks the keys, scrubs empty entries, links the table to `weak` or `grayagain` as its array and white values require |
| `LuaCollector.Collector.TraverseEphemeron` | src/lib/lua/lgc.c:394-430 | marks values of entries with marked keys, links the table where its remaining entries require, and tells whether it marked anything |
| `LuaCollector.Collector.TraverseStrong` | src/lib/lua/lgc.c:433-448 | marks every key and value and scrubs empty entries |
| `LuaCollector.Collector.TraverseTable` | src/lib/lua/lgc.c:451-471 | dispatches on the weak mode; a weak table becomes gray again |
| `LuaCollector.Collector.TraversePlain` | src/lib/lua/lgc.c:479-522 | marks all references of a closure or prototype |
| `LuaCollector.Collector.TraverseThread` | src/lib/lua/lgc.c:530-552 | marks the live stack; the thread stays gray, in `grayagain` |
| `LuaCollector.Collector.PropagateMark` | src/lib/lua/lgc.c:559-600 | one gray object is visited: everything `Visit` demands of colours, lists and bodies |
| `LuaCollector.Collector.PropagateAll` | src/lib/lua/lgc.c:603-605 | empties the gray list and keeps the atomic invariant; only threads join `grayagain` |
| `LuaCollector.Collector.PropagateLate` | src/lib/lua/lgc.c:1059-1061 | the `propagateall` before `atomic`: the lists that `atomic` asserts to be empty are if nothing was gray; they are not if a gray table must be cleared whatever else gets marked; and if they are, no table visited needs clearing |
| `LuaCollector.Collector.ConvergeEphemerons` | src/lib/lua/lgc.c:608-623 | ends, with all ephemeron tables converged |
| `LuaCollector.Collector.ClearKeys` | src/lib/lua/lgc.c:639-650 | entries with unmarked keys lose their values in every listed table, nothing else changes |
| `LuaCollector.Collector.ClearValues` | src/lib/lua/lgc.c:657-674 | entries and array slots with unmarked values are emptied in the tables up to `f` |
| `LuaCollector.Collector.AtomicMark` | src/lib/lua/lgc.c:979-999 | after the marking half the roots are marked, no ephemeron entry has a marked key and a white value, what is marked is closed under what the collector follows, strings apart, and nothing outside the bound is marked |
| `LuaCollector.Collector.AtomicMarkAll` | src/lib/lua/lgc.c:979-999 | what is marked lies in every set over the roots and the objects marked on entry that is closed under what the collector follows, and is all of the least one, strings apart: the least fixed point |
| `LuaCollector.Collector.AtomicClear` | src/lib/lua/lgc.c:1000-1020 | after the clearing half all references of marked objects are to marked objects, and nothing outside the bound was marked |
| `LuaCollector.Collector.AtomicStep` | src/lib/lua/lgc.c:1059-1066 | the step flips the white so that exactly the least set to be followed is live, starts the sweep, and leaves no dangling reference and loses nothing reachable if and only if the two conditions on parked tables hold |
| `LuaCollector.Collector.SweepList` | src/lib/lua/lgc.c:734-751 | the state and the position after sweeping so many objects one by one |
| `LuaCollector.Collector.EnterSweep` | src/lib/lua/lgc.c:956-961 | the sweep starts at the head of `allgc`, with one object swept |
| `LuaCollector.Collector.SweepTurn` | src/lib/lua/lgc.c:1026-1039 | a turn of a sweeping phase: 80 objects of `allgc` or what is left of it, then the next phase; the main thread is whitened last |
| `LuaCollector.Collector.RestartCollection` | src/lib/lua/lgc.c:337-344 | the gray lists start empty, the main thread, the registry and the metatables of basic types are marked, and exactly what is gray is linked |
| `LuaCollector.Collector.SingleStep` | src/lib/lua/lgc.c:1042-1094 | does what the phase calls for, and no more: what `LuaCycle.StepInv`, `StepReach`, `StepFacts` and `StepProgress` are about |
| `LuaCollector.Collector.RunUntil` | src/lib/lua/lgc.c:1101-1105 | steps of the collector until the phase is reached, and it is reached |
| `LuaCollector.Collector.FullGc` | src/lib/lua/lgc.c:1156-1172 | from any phase, whatever was parked before, by steps of the collector alone: what remains is exactly what was strongly reachable, the roots among it; an element or entry of a table is gone exactly if it, its key or its value was not reachable, and strong tables and all other objects are as they were; exactly the unreachable keys in empty entries of all-weak tables are left freed |
| `LuaCollector.Collector.ForwardBarrier` | src/lib/lua/lgc.c:155-164 | marks the value while marking, whitens the holder while sweeping |
| `LuaCollector.Collector.BackBarrier` | src/lib/lua/lgc.c:171-176 | the black table becomes gray and is linked to `grayagain` |
| `LuaCollector.Collector.StoreObject` | src/lib/lua/lgc.c:155-180 | exactly this object is written; with the barriers its kind uses this is a step the program may take, and keeps the invariant |
| `LuaCollector.Collector.SetUpvalue` | src/lib/lua/lvm.c:855-860 | exactly this upvalue is written, and the value marked while the collector is marking |
| `LuaCollector.Collector.SetMetatable` | src/lib/lua/lapi.c:842-875 | the metatable of a table or userdata is the new one and all its other contents and all other objects are as before; a forward barrier |
| `LuaCollector.Collector.NewObject` | src/lib/lua/lgc.c:208-216 | the object is as its creator made it, has the current white, is first in `allgc` and last on the creator's stack, and can be got at; all else is as before |
| `LuaCollector.Collector.InternString` | src/lib/lua/lstring.c:167-193 | the string is last on the stack, can be got at, and has the current white if it was dead; all else is as before |
| `LuaCollector.Collector.Perform` | src/lib/lua/lgc.c:155-216 | every step of the program is one of these methods or a plain assignment of the root or upvalue it names, and keeps the invariant |
| `RegionLists.FirstAbove` | src/common/libkogata/region_alloc.c:63-76 | the position a `first_bigger` link points to: the first strictly larger region from there on, or the end |
| `RegionLists.FirstFit` | src/common/libkogata/region_alloc.c:297-338 | the first region of at least the size asked for, with every earlier one smaller: what a full scan finds |
| `RegionLists.SkipMissesNothing` | src/common/libkogata/region_alloc.c:297-338 | following one `first_bigger` link passes over no region that is large enough |
| `RegionLists.RemoveKeeps` | src/common/libkogata/region_alloc.c:63-87 | after a removal the by-size list is ascending and every skip link leads to the first strictly larger region |
| `RegionLists.InsertKeeps` | src/common/libkogata/region_alloc.c:168-198 | the same after an insertion before the first region that is at least as large |
| `RegionSets.JoinPrev` | src/common/libkogata/region_alloc.c:111-166 | coalescing with the region before, one step of `add_free_region`, gives the same free set as joining all neighbours at once |
| `RegionSets.JoinNext` | src/common/libkogata/region_alloc.c:111-166 | the same for the region after |
| `RegionSets.JoinSound` | src/common/libkogata/region_alloc.c:111-166 | the merged region stays page-aligned, within bounds and clear of the used ones |
| `RegionSets.FreeKeeps` | src/common/libkogata/region_alloc.c:280-290 | freeing a used region keeps the tiling of `[begin, end)`, and no two free regions touch |
| `RegionSets.AllocKeeps` | src/common/libkogata/region_alloc.c:297-338 | carving a block out of a free region keeps the tiling, and no two free regions touch |
| `RegionSets.RoundTrip` | src/common/libkogata/region_alloc.c:280-338 | allocating and then freeing gives back exactly the free regions there were |
| `RegionOutcome.AllocatedKeeps` | src/common/libkogata/region_alloc.c:297-338 | any allocation, successful or not, keeps the tiling of `[begin, end)` |
| `RegionOutcome.AllocatedWhere` | src/common/libkogata/region_alloc.c:297-338 | an allocation is cut from a smallest region that is large enough, from its front for 16 KiB or more and from its end below; exactly its bytes stop being free |
| `RegionOutcome.NoneFits` | src/common/libkogata/region_alloc.c:297-338 | 0 comes back exactly if every free region is smaller or, without a spare descriptor, exactly if none has the very size; then nothing changes |
| `RegionOutcome.ReleasedKeeps` | src/common/libkogata/region_alloc.c:280-295 | any release, of a used address or another, keeps it |
| `RegionOutcome.RunTiled` | src/common/libkogata/region_alloc.c:297-370 | in every run of allocations and releases used and free regions are disjoint page-aligned intervals that tile `[begin, end)`, and no two free ones touch |
| `RegionOutcome.AllocThenFree` | src/common/libkogata/region_alloc.c:280-338 | the release of what one allocation handed out restores both sets exactly, types included |
| `RegionOutcome.FirstFitFits` | src/common/libkogata/region_alloc.c:297-338 | the region reached along the skip links is a best fit, and nothing is reached only when no free region is large enough |
| `RegionOutcome.OnlyBestFits` | src/common/libkogata/region_alloc.c:297-338 | all best fits have the same size |
| `RegionOutcome.PageFound` | src/common/libkogata/region_alloc.c:340-370 | while a page-sized free region exists the refill always gets its page, so the pool never runs dry |
| `RegionOutcome.Counts` | src/common/libkogata/region_alloc.c:48-61 | equal sets of free and used regions take equally many descriptors, so a refill that fails gives its descriptors back |
| `RegionOutcome.HousedTaken` | src/common/libkogata/region_alloc.c:297-338 | allocation never hands out memory that holds descriptors |
| `RegionOutcome.HousedReleased` | src/common/libkogata/region_alloc.c:280-290 | a release leaves every descriptor in its page |
| `RegionOutcome.HousedPage` | src/common/libkogata/region_alloc.c:340-370 | a page of new descriptors becomes one of the pages that hold descriptors |
| `RegionAllocator.Allocator.constructor` | src/common/libkogata/region_alloc.c:249-278 | one free region, the reserved part used, all twelve base descriptors in one role each, at least ten unused |
| `RegionAllocator.Allocator.RemoveFree` | src/common/libkogata/region_alloc.c:63-87 | both free lists lose exactly this descriptor and stay in order |
| `RegionAllocator.Allocator.InsertBySize` | src/common/libkogata/region_alloc.c:168-198 | the descriptor enters the by-size list, which stays ascending with every skip link to the first strictly larger region |
| `RegionAllocator.Allocator.InsertByAddr` | src/common/libkogata/region_alloc.c:111-166 | the descriptor goes where its address belongs |
| `RegionAllocator.Allocator.AddFree` | src/common/libkogata/region_alloc.c:111-199 | the free set becomes the old one with the region joined to its neighbours; a descriptor is given up for each merge; both lists stay in order |
| `RegionAllocator.Allocator.FindUsed` | src/common/libkogata/region_alloc.c:201-207 | the used region that contains the address; none exactly when no used region does |
| `RegionAllocator.Allocator.AddUsed` | src/common/libkogata/region_alloc.c:209-229 | the used list stays sorted by address and its assertions hold |
| `RegionAllocator.Allocator.RemoveUsed` | src/common/libkogata/region_alloc.c:231-243 | exactly that descriptor leaves the list |
| `RegionAllocator.Allocator.Search` | src/common/libkogata/region_alloc.c:297-310 | the walk over skip links ends at the first region that is large enough |
| `RegionAllocator.Allocator.Split` | src/common/libkogata/region_alloc.c:297-338 | what is left of the region is described by a fresh descriptor |
| `RegionAllocator.Allocator.AllocInner` | src/common/libkogata/region_alloc.c:297-338 | a best fit is carved, clear of all used regions and of all descriptors; 0 exactly when none fits or the spare descriptors may not be used; two of them stay unless they may; no descriptor is lost |
| `RegionAllocator.Allocator.FreeInner` | src/common/libkogata/region_alloc.c:280-290 | the used region at that address, whatever it holds, becomes free and joins its neighbours; any other address changes nothing; descriptors stay housed if the region holds none |
| `RegionAllocator.Allocator.AddPage` | src/common/libkogata/region_alloc.c:340-370 | all 204 descriptors of a fresh page become unused, none existed before |
| `RegionAllocator.Allocator.Alloc` | src/common/libkogata/region_alloc.c:340-370 | at least two unused descriptors before and after, whatever the mapping callback returns; it is asked for a page exactly when two are unused; if it fails then, both sets are as they were, and 0 comes back exactly if no free region has the very size; if not, it takes one page and gains its 204 descriptors |
| `RegionAllocator.Allocator.FreeAt` | src/common/libkogata/region_alloc.c:291-295 | a release at any address, with at least two unused descriptors before and after |
| `RegionAllocator.Allocator.Find` | src/common/libkogata/region_alloc.c:372-386 | the used region an address lies in, if any |
| `LuaOpcodes.RunPatched` | src/lib/lua/lopcodes.h:168-260 | running patched code is running the unpatched code up to the jumps that were open and going on at their targets |
| `LuaJumpLists.Joined` | src/lib/lua/lcode.c:116-127 | linking the last jump of a list to the first of another gives one acyclic list of all their jumps |
| `LuaJumpLists.PatchedMore` | src/lib/lua/lcode.c:224-234 | patching one more jump of a list redirects that jump only |
| `LuaJumpLists.PatchedOther` | src/lib/lua/lcode.c:224-234 | patching one list leaves a disjoint list as it was |
| `LuaFragments.AppendRun` | src/lib/lua/lcode.c:293-310 | running longer code is running the shorter code and going on at its end |
| `LuaFragments.EvalKept` | src/lib/lua/lcode.c:675-696 | an expression over locals does not depend on the temporaries the code writes |
| `LuaFragments.EvalGives` | src/lib/lua/lcode.c:1082-1167 | every expression has exactly one value by the rules of sections 3.4.4 and 3.4.5 of the Lua 5.3 manual, taken operator by operator, and it is the one the code is proved to yield |
| `LuaFragments.ConverseGives` | src/lib/lua/lcode.c:1033-1060 | `x > y` yields what `y < x` yields, `x >= y` what `y <= x` does, and `x ~= y` what `not (x == y)` does |
| `LuaFragments.LogicGives` | src/lib/lua/lcode.c:910-939 | De Morgan's laws for `and`, `or` and `not`; a double negation yields the truth of its operand |
| `LuaFragments.LikeGives` | src/lib/lua/lcode.c:1082-1167 | what an operator yields, in terms of its converse, its negation or the operand that decides |
| `LuaCodeLaws.LeafMeans` | src/lib/lua/lcode.c:556-585 | a literal or local described without code means its value |
| `LuaCodeLaws.LoadMeans` | src/lib/lua/lcode.c:595-640 | after a load into a register the fall-through delivers the value there, and the jumps out are as before |
| `LuaCodeLaws.RelocateMeans` | src/lib/lua/lcode.c:595-640 | fixing the register of an open instruction moves its result there |
| `LuaCodeLaws.TestMeans` | src/lib/lua/lcode.c:158-162 | a test of a register leaves by its jump exactly when the value has the tested truth, with the value if it is a TESTSET |
| `LuaCodeLaws.NotTestMeans` | src/lib/lua/lcode.c:839-855 | testing the operand of a `not` for the opposite truth is testing the `not` |
| `LuaCodeLaws.CompareMeans` | src/lib/lua/lcode.c:857-905 | the jump of a comparison, negated for the false side, leaves with the right truth |
| `LuaCodeLaws.ToHereMeans` | src/lib/lua/lcode.c:252-257 | the jumps out on the side that passes may lead to the end of the fragment |
| `LuaCodeLaws.NotMeans` | src/lib/lua/lcode.c:910-939 | exchanging the true and the false list negates the expression |
| `LuaCodeLaws.MergedMeans` | src/lib/lua/lcode.c:64-83 | a nil put into a register by extending the LOADNIL before the expression is there when the code is run from that LOADNIL |
| `LuaCodeLaws.CompareSame` | src/lib/lua/lcode.c:1033-1060 | the same for a comparison whose first operand has no code, so that its second one may extend that LOADNIL |
| `LuaCodeLaws.LogicMeans` | src/lib/lua/lcode.c:1082-1167 | joining the lists of two operands gives `and` and `or` with their short circuits (Lua 5.3 manual, section 3.4.5) |
| `LuaCodeLaws.CompareAll` | src/lib/lua/lcode.c:1033-1060 | comparing the values of two operands gives the comparison (section 3.4.4) |
| `LuaCodeLaws.FinalMeans` | src/lib/lua/lcode.c:675-696 | after the final patching every way out leaves the value in the register, through a TESTSET or a LOADBOOL |
| `LuaFrames.TidyAppended` | src/lib/lua/lcode.c:242-257 | patching the waiting jumps to the next instruction keeps all other lists acyclic, disjoint and open |
| `LuaFrames.TidyRelinked` | src/lib/lua/lcode.c:116-127 | relinking one list keeps the others |
| `LuaCode.FuncState.FixJump` | src/lib/lua/lcode.c:103-110 | only the offset of that jump changes, to the distance to the target |
| `LuaCode.FuncState.Concat` | src/lib/lua/lcode.c:116-127 | the result is the acyclic list of the jumps of both, and no other instruction changes |
| `LuaCode.FuncState.PatchTestReg` | src/lib/lua/lcode.c:195-207 | false when the jump has no TESTSET; otherwise exactly that instruction gets the register or becomes a TEST |
| `LuaCode.FuncState.RemoveValues` | src/lib/lua/lcode.c:213-216 | every TESTSET of the list becomes a TEST, nothing else changes |
| `LuaCode.FuncState.PatchListAux` | src/lib/lua/lcode.c:224-234 | exactly the listed jumps are redirected: those that deliver a value to one target, the others to the other |
| `LuaCode.FuncState.PatchToHere` | src/lib/lua/lcode.c:252-255 | the list joins the jumps that wait for the next instruction |
| `LuaCode.FuncState.Emit` | src/lib/lua/lcode.c:293-305 | the waiting jumps, and only they, are sent to the new instruction |
| `LuaCode.FuncState.Jump` | src/lib/lua/lcode.c:136-143 | the waiting jumps follow the new jump in its list |
| `LuaCode.FuncState.CondJump` | src/lib/lua/lcode.c:158-161 | a test and its jump |
| `LuaCode.FuncState.LoadNils` | src/lib/lua/lcode.c:64-83 | a new LOADNIL for exactly these registers, or an extended one before it that clears exactly what both would |
| `LuaCode.FuncState.AddK` | src/lib/lua/lcode.c:428-452 | the index holds the constant, and earlier constants keep theirs |
| `LuaCode.FuncState.Discharge2Reg` | src/lib/lua/lcode.c:595-635 | the value is in the register at the end, and the jumps out are unchanged |
| `LuaCode.FuncState.NeedValue` | src/lib/lua/lcode.c:659-665 | true exactly when some jump of the list delivers no value |
| `LuaCode.FuncState.CodeLoads` | src/lib/lua/lcode.c:675-696 | the two loads follow, and what falls out of the expression jumps past them |
| `LuaCode.FuncState.FinishExp` | src/lib/lua/lcode.c:675-696 | all jumps out are patched, and the lists are empty |
| `LuaCode.FuncState.Exp2Reg` | src/lib/lua/lcode.c:675-696 | however the expression is left, its value is in `reg`; no jump stays in its lists |
| `LuaCode.FuncState.Exp2NextReg` | src/lib/lua/lcode.c:703-708 | the same in the next free register, which is reserved |
| `LuaCode.FuncState.Exp2AnyReg` | src/lib/lua/lcode.c:715-727 | the same in some register, with no jumps left in its lists |
| `LuaCode.FuncState.Exp2Val` | src/lib/lua/lcode.c:744-749 | the value as it is if it has no jumps, with no code added, otherwise in a register; no jumps are left |
| `LuaCode.FuncState.Exp2RK` | src/lib/lua/lcode.c:758-776 | the value is a constant index of at most 255 or in a register; a constant with such an index is used as it is |
| `LuaCode.FuncState.NegateCondition` | src/lib/lua/lcode.c:825-830 | the comparison has the opposite sense and nothing else changes |
| `LuaCode.FuncState.JumpOnCond` | src/lib/lua/lcode.c:839-851 | the jump is taken exactly when the value has that truth; a `not` just coded is replaced by the test of its operand |
| `LuaCode.FuncState.GoIfTrue` | src/lib/lua/lcode.c:857-878 | what goes through is true, what is false leaves by the false list |
| `LuaCode.FuncState.GoIfFalse` | src/lib/lua/lcode.c:884-904 | what goes through is false, what is true leaves by the true list |
| `LuaCode.FuncState.CodeNot` | src/lib/lua/lcode.c:910-939 | describes the negation, for constants, comparisons and values |
| `LuaCode.FuncState.PosfixLogic` | src/lib/lua/lcode.c:1120-1137 | describes `x and y` or `x or y`, with the lists of both operands joined |
| `LuaCode.FuncState.CodeComp` | src/lib/lua/lcode.c:1033-1056 | describes the comparison; the opcode is that of the relation, with a failing test for `~=` and operands exchanged for `>` and `>=`, before a jump |
| `LuaCode.FuncState.Subexpr` | src/lib/lua/lparser.c:1044-1074 | for every expression of the model, the descriptor and the code emitted mean its value |
| `LuaCode.FuncState.LogicExpr` | src/lib/lua/lcode.c:1082-1092 | the same for `and` and `or` |
| `LuaCode.FuncState.RelExpr` | src/lib/lua/lcode.c:1082-1112 | the same for comparisons |
| `LuaCode.FuncState.ReturnExpr` | src/lib/lua/lcode.c:675-696 | running the code of `return e` from any registers returns the one value the manual's rules give `e`, that of `y < x` for `x > y`, and no jump is left open; where a LOADNIL came before that the code may have extended, the run begins with it and `e` is evaluated on what it used to leave |
| `LuaCode.FuncState.StoreLocal` | src/lib/lua/lcode.c:782-790 | running the code of `x = e` leaves the one value the manual's rules give `e` in the local's register and every other register in use as it was, with the same reading of a LOADNIL before it |
| `SlabState.LiveApart` | src/common/libkogata/slab_alloc.c:153-230 | in every state the invariant allows, two blocks handed out are the same block or do not overlap |
| `SlabState.DescOutside` | src/common/libkogata/slab_alloc.c:50-82 | descriptors lie outside every block handed out |
| `SlabState.PageAdded` | src/common/libkogata/slab_alloc.c:55-82 | a page of descriptors, recorded by the last descriptor in it, keeps the invariant |
| `SlabSteps.LinkCache` | src/common/libkogata/slab_alloc.c:166-194 | a new cache with a fresh page keeps the invariant |
| `SlabSteps.LinkRegion` | src/common/libkogata/slab_alloc.c:211-230 | a block handed out whole keeps it |
| `SlabSteps.UnlinkCache` | src/common/libkogata/slab_alloc.c:253-267 | a cache that leaves its list keeps it, its page given back and its descriptor unused |
| `SlabSteps.UnlinkRegion` | src/common/libkogata/slab_alloc.c:273-295 | a region that leaves the list keeps it |
| `SlabBlocks.SizeFits` | src/common/libkogata/slab_alloc.c:153-161 | the size a request comes to is large enough, and the least object size that is |
| `SlabBlocks.Counted` | src/common/libkogata/slab_alloc.c:176-205 | the count of free objects is the capacity minus the objects handed out |
| `SlabBlocks.LastInCache` | src/common/libkogata/slab_alloc.c:249-253 | the object put back was the only one in use exactly when the count reaches the capacity |
| `SlabBlocks.ObjectsFit` | src/common/libkogata/slab_alloc.c:184-190 | a cache never has more free objects than its capacity, and that many are all of them |
| `SlabBlocks.MovedBlock` | src/common/libkogata/slab_alloc.c:342-350 | allocate, copy, free adds up to moving one block |
| `SlabBlocks.ToStack` | src/common/libkogata/slab_alloc.c:124-151 | when only pages of descriptors are left, every record still to be read lies in a page still held |
| `SlabAllocator.Slab.constructor` | src/common/libkogata/slab_alloc.c:88-122 | the first page holds the lists and as many unused descriptors as fit after them; there are no caches, regions or blocks |
| `SlabAllocator.Slab.TakeDescriptor` | src/common/libkogata/slab_alloc.c:55-82 | an unused descriptor, or none exactly when the page source refused a page in this call, and it is asked only when none is unused; no block changes |
| `SlabAllocator.Slab.NewCache` | src/common/libkogata/slab_alloc.c:166-194 | a cache in front of its list with all the objects its pages have room for, all free, or no change of any block; it fails exactly when the page source refused a request of this call |
| `SlabAllocator.Slab.TakeObject` | src/common/libkogata/slab_alloc.c:195-208 | the first free object of the cache is handed out, apart from all others |
| `SlabAllocator.Slab.FindRoom` | src/common/libkogata/slab_alloc.c:159-165 | the first cache with a free object; its counter is 0 exactly when its free list is empty |
| `SlabAllocator.Slab.AllocObject` | src/common/libkogata/slab_alloc.c:153-208 | an object of the type, the first free one of the first cache that has one; the page source is asked for memory exactly when no cache has one, and 0 comes back exactly when it refuses |
| `SlabAllocator.Slab.Alloc` | src/common/libkogata/slab_alloc.c:153-230 | a new block of the size the request comes to, apart from every other, or nothing; 0 exactly when the page source refused a request of this call, never when a cache of the type has a free object; the contents of all other blocks stay |
| `SlabAllocator.Slab.AllocWhole` | src/common/libkogata/slab_alloc.c:211-230 | the same for sizes above every type: a piece of that size from the page source |
| `SlabAllocator.Slab.PutObject` | src/common/libkogata/slab_alloc.c:238-251 | exactly this block is not handed out any more |
| `SlabAllocator.Slab.DropCache` | src/common/libkogata/slab_alloc.c:253-267 | no block changes; the cache's page is given back |
| `SlabAllocator.Slab.FreeObject` | src/common/libkogata/slab_alloc.c:232-269 | the cache's page goes back exactly when its last object is freed |
| `SlabAllocator.Slab.FreeWhole` | src/common/libkogata/slab_alloc.c:273-295 | the region's memory goes back, and exactly this block is gone |
| `SlabAllocator.Slab.Free` | src/common/libkogata/slab_alloc.c:232-296 | exactly this block goes, its double-free and alignment assertions hold, and the contents of all others stay |
| `SlabAllocator.Slab.FindGetSize` | src/common/libkogata/slab_alloc.c:298-317 | the size of the block |
| `SlabAllocator.Slab.Realloc` | src/common/libkogata/slab_alloc.c:319-351 | the block stays, or moves with the common prefix of its contents, or, exactly when the page source refused a request, everything stays and 0 comes back; all other blocks keep their contents |
| `SlabAllocator.Slab.Reallocate` | src/common/libkogata/slab_alloc.c:319-351 | with the null pointer an allocation, with size 0 a release |
| `SlabAllocator.Slab.StackAndDestroy` | src/common/libkogata/slab_alloc.c:124-130 | the pages of a list of records go, every record read while its page is held |
| `SlabAllocator.Slab.Destroy` | src/common/libkogata/slab_alloc.c:131-151 | every page held goes back to the page source exactly once, and no record is read after its page went |
| `FrameAllocator.MaskBits` | src/kernel/core/frame.c:51 | the mask `(0xFFFFFFFF >> (32 - n)) << j` has exactly the bits from `j` to `j + n - 1` |
| `FrameAllocator.FreeRunUses` | src/kernel/core/frame.c:50-53 | a run of free frames is one in which no frame is in use, inside one word |
| `FrameAllocator.SetRunUses` | src/kernel/core/frame.c:50-54 | the frames in use after an allocation are the old ones and exactly the run |
| `FrameAllocator.ClearRunUses` | src/kernel/core/frame.c:70-78 | the frames in use after a release are the old ones without the run |
| `FrameAllocator.RoundTrip` | src/kernel/core/frame.c:40-83 | freeing an allocation restores the bitmap exactly |
| `FrameAllocator.RunCount` | src/kernel/core/frame.c:53-54 | an allocation sets as many bits as it adds to the counter |
| `FrameAllocator.SoundAlloc` | src/kernel/core/frame.c:40-65 | an allocation keeps the cursor invariant (every word below it is full) and the counter |
| `FrameAllocator.SoundFree` | src/kernel/core/frame.c:67-83 | so does a release |
| `FrameAllocator.FirstRun` | src/kernel/core/frame.c:44-62 | the first place in the first word that has one is the first run of free frames of all |
| `FrameAllocator.BelowFull` | src/kernel/core/frame.c:44-48 | no run of free frames starts below the cursor |
| `FrameAllocator.Frames.constructor` | src/kernel/core/frame.c:16-36 | exactly the kernel's frames are in use, the counter and the cursor are right |
| `FrameAllocator.Frames.Alloc` | src/kernel/core/frame.c:40-65 | hands out the first free run inside one word that a scan from word 0 finds, and nothing when there is none; the result is 0 exactly when there is none or the run starts at frame 0, which is in use until it is freed; only these frames change |
| `FrameAllocator.Frames.Free` | src/kernel/core/frame.c:67-83 | exactly these frames, from any base on, become free and the counter equals the bits set |
| `TreeItems.AddedSorted` | src/common/libkogata/btree.c:117-142 | adding an item keeps the order |
| `TreeItems.AddedItems` | src/common/libkogata/btree.c:117-142 | adding adds exactly one item |
| `TreeItems.AddedAt` | src/common/libkogata/btree.c:117-127 | adding below a node is adding to one side |
| `TreeItems.WithoutSorted` | src/common/libkogata/btree.c:155-243 | removing keeps the order and removes exactly the matching items |
| `TreeItems.AddedPlace` | src/common/libkogata/btree.c:117-127 | the new item comes after all items below it and before all others, those with an equal key included |
| `TreeHeights.EquilibratedTrue` | src/common/libkogata/btree.c:101-111 | rebalancing leaves real heights real |
| `TreeHeights.EvenExactly` | src/common/libkogata/btree.c:101-111 | for real heights, exactly when the sides differ by one at most after rebalancing: no node that it rotates is higher on its inner side |
| `TreeHeights.OneInsertion` | src/common/libkogata/btree.c:117-127 | after one insertion, exactly when the higher side, if two higher, is not higher on its inner side |
| `TreeHeights.LeansIn` | src/common/libkogata/btree.c:101-111 | 1, 3 and 2 inserted in this order end with sides of heights 2 and 0 |
| `OrderedTree.RotateLeft` | src/common/libkogata/btree.c:69-83 | same items in the same order, same nodes; the left child on top, with recalculated heights |
| `OrderedTree.RotateRight` | src/common/libkogata/btree.c:85-99 | same items in the same order, same nodes; the right child on top, with recalculated heights |
| `OrderedTree.Equilibrate` | src/common/libkogata/btree.c:101-111 | ends whatever the recorded heights, keeps items, order and nodes, and never leaves the right side two higher; for real heights the sides differ by one at most exactly under the condition of `TreeHeights.EvenExactly`; a tree with even sides stays as it is |
| `OrderedTree.LeanIn` | src/common/libkogata/btree.c:117-142 | the calls of the last insertion of 1, 3 and 2 leave a left side of height 2 and no right side |
| `OrderedTree.Insert` | src/common/libkogata/btree.c:117-128 | the item is added in order; real heights stay real |
| `OrderedTree.ExtractSmallest` | src/common/libkogata/btree.c:144-154 | the first node and the tree of the others, in order |
| `OrderedTree.RemoveAux` | src/common/libkogata/btree.c:155-243 | exactly the items with the key (and value) go, each is released once |
| `OrderedTree.PartedBoth` | src/common/libkogata/btree.c:203-239 | when the root has the key but another value, both sides are searched and nothing is lost |
| `OrderedTree.Find` | src/common/libkogata/btree.c:249-267 | an item with the key, if there is one |
| `OrderedTree.Lower` | src/common/libkogata/btree.c:269-289 | an item with the greatest key at or below the probe |
| `OrderedTree.Upper` | src/common/libkogata/btree.c:291-312 | an item with the least key at or above the probe |
| `OrderedTree.LowerAt` | src/common/libkogata/btree.c:269-281 | what the search of one side and the root give together |
| `OrderedTree.OnlyAt` | src/common/libkogata/btree.c:325-337 | equal keys may lie on both sides of a node |
| `OrderedTree.Iter` | src/common/libkogata/btree.c:314-323 | every item, in order |
| `OrderedTree.IterOn` | src/common/libkogata/btree.c:325-341 | exactly the items with the key, in order, as a linear scan finds them |
| `OrderedTree.DeleteItems` | src/common/libkogata/btree.c:35-48 | every item is released once |
| `OrderedTree.RecalcHeight` | src/common/libkogata/btree.c:63-67 | records one more than the greater of the recorded heights of the children, 1 without children; nothing else changes |
| `OrderedTree.BTree.Add` | src/common/libkogata/btree.c:129-142 | one item more, in order; the count equals the nodes; real heights stay real |
| `OrderedTree.BTree.Remove` | src/common/libkogata/btree.c:188-190 | exactly the items with the key go, each released once; the count equals the nodes |
| `OrderedTree.BTree.RemoveV` | src/common/libkogata/btree.c:241-243 | of those only the ones with that value |
| `OrderedTree.BTree.Delete` | src/common/libkogata/btree.c:44-48 | every item is released once |
| `HashTable.Unique` | src/common/libkogata/hashtbl.c:93-111 | a table has at most one item for each class of equal keys |
| `HashTable.LookupIs` | src/common/libkogata/hashtbl.c:142-150 | what the table maps a key to is the value of that item |
| `HashTable.Pushed` | src/common/libkogata/hashtbl.c:100-106 | a new item in front of its chain keeps every item in the chain of its hash, one per key |
| `HashTable.Pulled` | src/common/libkogata/hashtbl.c:118-135 | so does taking one out, and exactly the items with that key go |
| `HashTable.MovingStep` | src/common/libkogata/hashtbl.c:77-86 | moving one item to the new array keeps all items, their number and their places |
| `HashTable.MovingEnds` | src/common/libkogata/hashtbl.c:76-90 | when the old array is empty the new one has exactly the items there were |
| `HashTable.SizeStays` | src/common/libkogata/hashtbl.c:65-71 | sizes are 16 times a power of two |
| `HashTable.OneResize` | src/common/libkogata/hashtbl.c:65-71 | one resizing is enough after one item more or less: at most three quarters full, and at least one quarter unless the size is 16 |
| `HashTable.FlatAre` | src/common/libkogata/hashtbl.c:152-158 | chain after chain, every item once |
| `HashTable.HashTable.constructor` | src/common/libkogata/hashtbl.c:25-45 | the empty map, in 16 chains |
| `HashTable.HashTable.Rehash` | src/common/libkogata/hashtbl.c:74-89 | the same items in an array of the new size |
| `HashTable.HashTable.CheckSize` | src/common/libkogata/hashtbl.c:65-91 | the map and the count stay; with memory the array doubles above three quarters, halves below one quarter unless it has 16 chains, and stays otherwise |
| `HashTable.HashTable.Locate` | src/common/libkogata/hashtbl.c:142-150 | the place of a key in the chain of its hash, or none in the whole table |
| `HashTable.HashTable.Find` | src/common/libkogata/hashtbl.c:142-150 | the value the map has for the key |
| `HashTable.HashTable.Change` | src/common/libkogata/hashtbl.c:164-175 | the item of the key, if present, has the new value; all other items stay |
| `HashTable.HashTable.Remove` | src/common/libkogata/hashtbl.c:113-140 | exactly the key goes and its item is released once; the count follows; at most three quarters and at least one quarter full, unless of 16 chains, if so before and memory suffices |
| `HashTable.HashTable.Add` | src/common/libkogata/hashtbl.c:93-111 | the key has the new value in an item of its own, all others keep theirs, an item it replaces is released and nothing else is, the count is right, the size law is kept when memory suffices; without memory for an item nothing changes |
| `HashTable.HashTable.Iter` | src/common/libkogata/hashtbl.c:152-158 | every item once |
| `HashTable.HashTable.Delete` | src/common/libkogata/hashtbl.c:47-63 | every item is released once |
| `Channel.RunInv` | src/kernel/user/ipc.c:104-207 | in every interleaving bytes read followed by bytes in the ring are the bytes written, in order; a reader sleeps only on an empty ring, a writer only on a full one; a blocking call ends only with all it asked for |
| `Channel.NeverBothAsleep` | src/kernel/user/ipc.c:104-207 | a reader and a writer never both sleep on a channel |
| `Channel.ReadMoves` | src/kernel/user/ipc.c:104-151 | in every run a pass of a read moves the oldest bytes of the ring, as many as there are or as are still wanted; the call ends exactly if it does not block or has all it asked for; sleepers wake exactly if bytes moved; nothing else changes |
| `Channel.WriteMoves` | src/kernel/user/ipc.c:153-207 | in every run a pass of a write moves its next bytes, as many as are left or as there is room for, with the same end of the call and wake-ups |
| `Channel.SleepExactly` | src/kernel/user/ipc.c:104-151 | in every run, whatever the pass, a read goes to sleep exactly when it is blocking and the ring is empty |
| `Channel.WriteSleepExactly` | src/kernel/user/ipc.c:153-207 | in every run, whatever the pass, a write goes to sleep exactly when it is blocking and the ring is full |
| `Channel.Ring.Take` | src/kernel/user/ipc.c:115-135 | the oldest bytes of the ring, up to the length asked for, leave it in order, also around the end of the buffer |
| `Channel.Ring.Put` | src/kernel/user/ipc.c:171-195 | as many bytes as there is room for join the ring at its end, in order |
| `Channel.Pipe.Begin` | src/kernel/user/vfs.c:499-517 | a call that asks for something enters the channel |
| `Channel.Pipe.ReadPass` | src/kernel/user/ipc.c:104-151 | a pass of a read on the ring itself is a read step of the run |
| `Channel.Pipe.WritePass` | src/kernel/user/ipc.c:153-207 | a pass of a write on the ring itself is a write step of the run |
| `Scheduler.Threads.Enqueue` | src/kernel/core/thread.c:75-88 | the thread is last, or first when it did not just run; the links stay one acyclic chain |
| `Scheduler.Threads.Dequeue` | src/kernel/core/thread.c:90-98 | the first thread leaves the queue |
| `Scheduler.Threads.Unlink` | src/kernel/core/thread.c:284-338 | exactly this waiter leaves the acyclic list, the others in their order, and its assertions hold |
| `Scheduler.Threads.NewThread` | src/kernel/core/thread.c:166-222 | a loading thread, in no list |
| `Scheduler.Threads.Start` | src/kernel/core/thread.c:261-271 | it becomes running and queued once |
| `Scheduler.Threads.Dispatch` | src/kernel/core/thread.c:119-150 | the first ready thread goes on, waiting for nothing any more, or none is ready; the others stay ready and waiting in their order |
| `Scheduler.Threads.Yield` | src/kernel/core/thread.c:273-278 | the running thread is queued last and the first one goes on |
| `Scheduler.Threads.WaitOn` | src/kernel/core/thread.c:284-338 | the thread sleeps on these objects, first among the waiters; the first ready thread goes on, or none; the others stay ready and waiting in their order, on what they waited for |
| `Scheduler.Threads.Exit` | src/kernel/core/thread.c:363-378 | the thread is finished, in no list, and never runs again; the first ready thread goes on, or none; the others stay as they were |
| `Scheduler.Threads.ResumeOn` | src/kernel/core/thread.c:380-408 | exactly the threads paused on that object become ready, in front of the others; tells whether there was one |
| `Scheduler.Threads.Placed` | src/kernel/core/thread.c:75-150 | in every state between steps: a running thread is current or queued exactly once, a paused one is among the waiters once and not queued, a loading or finished one is in neither list |
| `Scheduler.ChainUnlink` | src/kernel/core/thread.c:321-334 | unlinking one element leaves the rest of the chain as it was |
| `Scheduler.MinusAt` | src/kernel/core/thread.c:321-334 | without one of its elements a list has all others, in their order |
| `WorkerQueue.RunInv` | src/kernel/core/worker.c:47-106 | in every interleaving of pushes, workers and ticks, with ticks also inside critical sections: the next task time is at most every due time in the tree but that of a task just being added, every task is in one place, tasks given were due |
| `WorkerQueue.NoMissedTick` | src/kernel/core/worker.c:98-106 | no tick past a due time skips the loop that wakes a worker, unless a push is between adding its task and lowering the next task time |
| `WorkerQueue.MissedExactly` | src/kernel/core/worker.c:84-91 | exactly when a tick skips it all the same: a push is between those two writes, its task is due, and the next task time is not reached without it |
| `WorkerQueue.TickMissed` | src/kernel/core/worker.c:86-87 | a run in which that happens |
| `WorkerQueue.TimeIsTicked` | src/kernel/core/worker.c:98-99 | the time is the sum of the microseconds of all ticks, in 64-bit arithmetic |
| `WorkerQueue.AskedAt` | src/kernel/core/worker.c:76-82 | what is known of a task is the time of its push and the delay the push asked for |
| `WorkerQueue.GivenOnceNotEarly` | src/kernel/core/worker.c:47-74 | a task is given at most once, and never before it is due; it is due at the time of its push plus its delay (where that sum fits in 64 bits) |
| `WorkerQueue.GivenEarliest` | src/kernel/core/worker.c:53-60 | a task given is an earliest one in the tree, and when none is given none is due |
| `WorkerQueue.NoneLost` | src/kernel/core/worker.c:76-92 | every task pushed is pending, in the tree, or given |
| `WorkerQueue.Queue.Look` | src/kernel/core/worker.c:51-54 | the mutex is taken, a task with the least due time is found and the next task time set to it |
| `WorkerQueue.Queue.TakeTask` | src/kernel/core/worker.c:56-62 | the task found comes out of the tree exactly when it is due, and the mutex is released |
| `WorkerQueue.Queue.Prepare` | src/kernel/core/worker.c:76-82 | the due time, now plus the delay in 64-bit arithmetic, is fixed before the mutex is taken |
| `WorkerQueue.Queue.PushIn` | src/kernel/core/worker.c:84-86 | the mutex is taken and the task is in the tree |
| `WorkerQueue.Queue.LowerNext` | src/kernel/core/worker.c:87-89 | the next task time is at most its due time then, and the mutex is released |
| `WorkerQueue.Queue.NotifyTimePass` | src/kernel/core/worker.c:98-106 | time advances by exactly these microseconds, in 64-bit arithmetic, and if the next task time is reached the first worker that can be resumed is |

## Left out

Assumptions and simplifications, part by part.

Garbage collector:

- finalizers, resurrection, `luaC_fix`, `luaC_freeallobjects`, the emergency mode, stack shrinking, debt and pause arithmetic, string table resizing and the string cache.
- open upvalues and `remarkupvals`; upvalues of Lua closures are closed cells shared by any number of closures, and their reference counts are not modelled.
- which closures a prototype still caches after a collection depends on when it was visited and is not stated.
- LuaCollector.Collector.FullGc: the key of an entry that is emptied may be dead although it is kept, for a string that was marked later.
- objects are records in a map keyed by address, and the collector's linked lists are sequences; a weak mode is a field of the table that the program may change together with the metatable.
- the back barrier of a key that fills an empty entry again is that of any other store.
- a weak mode may change in any table at any time; that all tables whose metatable gets another `__mode` change together is not demanded.
- LuaRun.NeverFreed: for runs whose atomic steps meet the condition that `LuaCycle.AtomicExact` shows to be exact.
- LuaCollector.Collector.RemoveEntry: what reading the mark of a freed key yields is left open.
- LuaCollector.Collector.PropagateLate: whether the assertion fails is not decided where it depends on the order of visits.
- LuaCycle.AtomicExact: a parked object that is no table is excluded by the invariant; no step changes what kind of object a reference is.

Code generator:

- calls, varargs, upvalues, indexed variables, arithmetic and concatenation, line information, operator priorities of the parser, metamethods and errors of comparisons, and integer limits of jumps.
- numbers are integers; a constant always fits the instruction that uses it, and registers do not run out.
- LuaCode.FuncState.ReturnExpr: jumps that wait for the first instruction have marked it as a jump target, as `luaK_patchtohere` does; registers suffice for the expression.
- LuaCode.FuncState.StoreLocal: the same.

Region allocator:

- the lock, debug printing and `_region_alloc_rec_check_first_bigger`'s printing; requests of 0 bytes, and those above 0xFFFFF000, whose rounding wraps around.
- lists are sequences of descriptors with explicit skip links; the callback that maps a page is a parameter.
- RegionAllocator.Allocator.Alloc: a free region exists whenever descriptors must be refilled, as the source asserts.
- RegionAllocator.Allocator.FreeAt: after memory that holds descriptors has been given back, only the tiling is promised, no longer that descriptors stay clear of what is handed out.

Slab allocator:

- the page source hands out memory apart from all it has given, never none of it, or nothing; failure of the very first page is not modelled.
- lists are sequences; the bytes of a record in its page are only known to lie outside every block.
- object sizes increase strictly along the table of types, and each fits its cache.

Frame allocator:

- the lock; requests of 0 frames, for which the source shifts by 32; a word is the set of its bits, `FrameAllocator.MaskBits` relates the source's mask to it.

Tree and hash table:

- failure to allocate a tree node; running time, and balance beyond one rebalancing; keys and values are integers, compared by any function that orders them (tree) or by any equivalence that the hash respects (table).
- the chains of the hash table are sequences; its failure to allocate is a parameter.

Scheduler, channel and worker queue:

- each section with interrupts off is one step; critical levels, context switches, process contexts, `kill_thread`, `remove_thread_from_queue` and `usleep`.
- both ends of the channel stay open: teardown, polling and a writer whose peer has gone.
- WorkerQueue.GivenOnceNotEarly: a sum of push time and delay that exceeds 64 bits wraps around, as in the source; negative delays.
- which worker takes which item, and running and freeing it; a tick that comes between a worker's release of the mutex and its wait resumes another worker or none.
- each 64-bit read or write of the time and of the next task time is one access.

The rest of Kogata (drivers, paging, file systems, processes, system calls, graphics, the C
library) and of Lua (lexer, API, libraries, virtual machine beyond the opcodes above) is
not part of this model.
