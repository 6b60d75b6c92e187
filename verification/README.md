# Verified kernels of LearnLinux

A Dafny model of the small kernels in this repository whose correctness rests on global
invariants, and proofs of what they are for. `dafny verify dfyconfig.toml` checks everything.

| area | modules | main result |
|---|---|---|
| copy-on-write memory of Linux 0.11 | PageFrames, CopyOnWrite, PageFaults, FrameSupply, EagerCopy, LowMemory, DirtyPages, MemoryManager | every run looks like memory copied at once; mem_map always counts names and holders; operations fail exactly for want of frames; a failed fork leaves no trace; a page is dirty exactly when it was written |
| hoc5 compiler and stack machine | HocLanguage, HocMachine, HocCompiler, HocCorrect, HocOperators, HocDevice | compiled code means what direct evaluation means, divergence included |
| hoc with functions and procedures | HocFunctions, HocCalls, HocCallsCorrect, HocGas, HocReturns, HocCallOperators, HocCallDevice | calls, arguments and return through any nesting mean what the language says, exactly when no bare return without an address is met |
| buffer cache | BufferCache, BufferTasks, BufferQueues, BufferHeads | under any interleaving labels are unique, held buffers keep theirs and what is up to date was read under its label; hash chains and free ring index one set of buffers |
| Minix files | ZoneTree, ZoneAlloc, ZoneFiles, MinixFile, MinixRuns | files are flat byte arrays over every run; zones are conserved |
| kernel malloc | KernelHeap, HeapState, HeapMoves, Malloc | live objects are disjoint, aligned and large enough; pages go back exactly when empty |
| mapped message queue | PriorityQueue, MessageQueue | refines a priority queue, first in first out among equals |
| read-write lock | RwLock | exclusion, exact counters and preference of writers in every run, failing waits included; exactly when a failing wait strands somebody |
| producers and consumers | ProdCons | every interleaving ends with each item consumed once |
| sleep_on and wake_up | SleepQueue | no sleeper is forgotten |
| scheduler | Scheduler, SleepersCredit | best task after at most one recharge; counters are used up between recharges; bounds on them over every run; what a sleeper gains |
| pipe | Pipe | a first-in-first-out stream through a ring of one page |

How the code becomes a model:

- Code that updates state in place is a class, or a method with loops, proved equal to functions
  on values (`Abs`, `State`, `St` give the value of an object). The invariants and the main
  theorems are about those functions.
- Concurrent code is a machine whose steps are the stretches of code between two points where a
  task can lose the processor: a sleep in the kernel, the mutex in the read-write lock, every
  statement in the producer-consumer program. Events pick the task, so a statement about all event
  sequences is one about all interleavings.
- get_free_page in the allocator, what other tasks do while a pipe end sleeps, the tick and the
  writer that a signal picks are parameters.
- Widths that matter are written out: mem_map and b_count are bytes and wrap, zone numbers are 16
  bits stored low byte first, links inside free objects are 32-bit words of four bytes.
- Programs of hoc may run for ever. The hoc5 machine and evaluator take fuel, and MachineIsSound,
  MachineIsComplete and MachineDivergesAlike together say that fuel does not matter. The hoc machine
  with calls counts dispatches, and its evaluator counts the same, so the two agree for every count;
  LineMeans and LineMeansWhatItSays leave the count out.

Where the code does not do what one would like, the model follows the code and says when it does:

- A buffer with 256 references has b_count 0 again (WrapLosesTheLabel); StepKeeps of BufferTasks
  says that this is the only way the cache goes wrong.
- A frame below LOW_MEM stays writable in the parent after fork (FirstForkIsNoCopyAt); FirstForkIsNoCopy
  says how long the child sees the parent's writes.
- put_page overwrites a present entry without a look, and its frame is lost: TwiceAtOneAddress shows it, PutPage
  says exactly when.
- write_verify gives a task its own copy of a page, which is clean although the page was written before, and until
  it is written again try_to_share takes it (VerifiedCopyIsShared); RunMarks says exactly when a page is dirty.
- new_block marks a bit before it compares the zone with s_nzones (FailureTakesABit, SecondBlockTakesABit), so
  conservation is about zones below s_nzones.
- insert_into_queues stores through b_next even when it is null, that is, into the word at address 20,
  an entry of the page directory: FirstGetblk shows it, InsertIntoQueues says exactly when. The field
  `outside` keeps what is stored there.
- free_s of an address that is free already leaves a cyclic chain: GivenTwice shows it, FreeTwiceBreaks says exactly when.
- A condition wait that fails can strand a waiting writer (FailureStrands, FailKeepsIff).
- Counters of tasks are bounded by priorities ever held (EveryRunWithin), not by those of the moment: nice and
  release break that bound (NiceBreaksTheBound, ReleaseBreaksTheBound), and RunBoundedIff says exactly when.
- A bare `return` in hoc sets no value for its statement, so as a part of if, while or for its address is that of
  the keyword's Symbol (BareReturnBreaks); CodeIsPatched and LineIsRightIff say exactly when this matters.

## Model

| member | source | states |
|---|---|---|
| PageFrames.CountIsSmall | linux-0.11/mm/memory.c:57-57 | no counted frame has more names than tasks and holders allow, so the byte in mem_map never wraps |
| PageFrames.CountOneIsSole | linux-0.11/mm/memory.c:226-230 | mem_map is 1 exactly when the entry at hand is the only name of its frame; this is why the in-place branch of un_wp_page is safe |
| PageFrames.AllocKeeps | linux-0.11/mm/memory.c:63-83 | taking a free frame keeps counts equal to names plus holders, sharing read-only, and every task's view |
| PageFrames.UnholdKeeps | linux-0.11/mm/memory.c:89-103 | giving back a held frame keeps the counting invariant |
| PageFrames.InstallTableKeeps | linux-0.11/mm/memory.c:169-173 | a new page table keeps the counting invariant and changes no translation |
| PageFrames.RemoveTableKeeps | linux-0.11/mm/memory.c:126-127 | freeing an emptied page table keeps the counting invariant |
| PageFrames.MapHeldKeeps | linux-0.11/mm/memory.c:207-216 | a held page that becomes mapped keeps the counting invariant and changes one translation |
| PageFrames.UnmapKeeps | linux-0.11/mm/memory.c:121-125 | dropping an entry keeps the counting invariant and changes one translation |
| PageFrames.ShareKeeps | linux-0.11/mm/memory.c:176-186 | sharing a frame raises its count by one and leaves both names read-only, so two names are never writable |
| CopyOnWrite.LastFree | linux-0.11/mm/memory.c:63-70 | the scan from the end finds the last zero count, if there is one |
| CopyOnWrite.CopyDirsEffect | linux-0.11/mm/memory.c:150-189 | a successful copy gives the child, byte for byte, the parent's view, and changes no other task's view |
| CopyOnWrite.CopyDirsFrame | linux-0.11/mm/memory.c:163-186 | a copy, successful or not, changes no directory entry outside the child and no page the kernel holds |
| CopyOnWrite.FreeDirsEffect | linux-0.11/mm/memory.c:105-131 | free_page_tables empties exactly the given regions and leaves every other translation as it was |
| CopyOnWrite.Fork | linux-0.11/kernel/fork.c:39-62 | copy_mem keeps the whole memory invariant on success, on failure and on panic |
| CopyOnWrite.ForkUndone | linux-0.11/kernel/fork.c:56-59 | after a fork that ran out of memory every mem_map count, directory entry and translation is as before |
| PageFaults.CopyPageViews | linux-0.11/mm/memory.c:231-237 | moving one entry to a private copy of its page is seen by no task |
| PageFaults.UnWpPage | linux-0.11/mm/memory.c:221-238 | un_wp_page keeps the invariant, never panics, leaves the entry writable when it succeeds and everything as it was when it does not |
| PageFaults.UnWpPageViews | linux-0.11/mm/memory.c:221-238 | the write fault changes no task's view of any page |
| PageFaults.Store | linux-0.11/mm/memory.c:247-259 | a user store, through do_wp_page where needed, changes one byte of the storing task's view and nothing else, or nothing at all |
| PageFaults.WriteByte | linux-0.11/mm/memory.c:221-238 | a store through a writable entry changes one byte of one view |
| PageFaults.VerifyViews | linux-0.11/mm/memory.c:261-272 | write_verify changes no task's view of any page |
| PageFaults.PutPage | linux-0.11/mm/memory.c:197-219 | put_page maps the held page at one address and changes no other view; it does not look at what it overwrites, so the invariant survives if and only if no counted page was mapped there |
| PageFaults.LosesAFrame | linux-0.11/mm/memory.c:216-216 | otherwise the count of the page it overwrites is one too high |
| FrameSupply.TwiceAtOneAddress | linux-0.11/mm/memory.c:274-284 | after boot, two calls of get_empty_page for one address both succeed and the invariant is lost |
| PageFaults.GetEmptyPageDoes | linux-0.11/mm/memory.c:274-282 | get_empty_page maps a zero page, or leaves every view, count, table and holder as it was |
| PageFaults.TryToShare | linux-0.11/mm/memory.c:292-334 | try_to_share makes the other task's page visible at the same place, or changes no view; its panic needs a page already there |
| FrameSupply.FreeMeans | linux-0.11/mm/memory.c:63-83 | a frame is free exactly when no entry names it and the kernel does not hold it |
| FrameSupply.ForkIff | linux-0.11/mm/memory.c:150-189 | fork succeeds if and only if there are as many free frames as the parent has page tables |
| FrameSupply.UnWpPageIff | linux-0.11/mm/memory.c:226-232 | un_wp_page succeeds if and only if the page has no other name or a frame is free |
| FrameSupply.VerifyIff | linux-0.11/mm/memory.c:261-272 | write_verify kills the task if and only if the page is protected, shared or below LOW_MEM, and no frame is free |
| FrameSupply.StoreIff | linux-0.11/mm/memory.c:226-232 | a store is done, kills the task, or faults, each in exactly the stated cases |
| FrameSupply.PutPageIff | linux-0.11/mm/memory.c:207-215 | put_page fails if and only if it needs a table and no frame is free |
| FrameSupply.GetEmptyPageIff | linux-0.11/mm/memory.c:274-282 | get_empty_page needs one frame, or two where there is no table, and succeeds exactly with them |
| FrameSupply.TryToShareIff | linux-0.11/mm/memory.c:303-325 | try_to_share shares, refuses, runs out of memory or panics, each in exactly the stated cases |
| LowMemory.CopyDirsLeave | linux-0.11/mm/memory.c:163-186 | a copy changes no entry outside the child, and of the parent only those of a user task |
| LowMemory.StepLeavesTaskZero | linux-0.11/mm/memory.c:179-180 | no operation of a user task changes an entry of task 0 |
| LowMemory.RunFrame | linux-0.11/mm/memory.c:221-238 | over every run in which the task does not exit, a page below LOW_MEM is still the shared one if and only if no store or write_verify made it private |
| LowMemory.FirstForkShares | linux-0.11/mm/memory.c:172-180 | after the fork of task 0 the child names each of the 160 pages read-only, and task 0 keeps its own entry, writable as it was |
| LowMemory.FirstForkIsNoCopy | linux-0.11/mm/memory.c:172-180 | that fork is no copy: after any run in which the child lives on, a write by task 0 changes what the child sees if and only if the child's page has not become private |
| LowMemory.FirstForkIsNoCopyAt | linux-0.11/mm/memory.c:172-180 | right after boot task 0 forks, writes into page 100, and task 1 sees it |
| DirtyPages.ShareMarks | linux-0.11/mm/memory.c:176-186 | a shared entry has frame and dirty bit of the one it is made from, and neither is writable; the old one stays as it is below LOW_MEM |
| DirtyPages.CopyEntriesMarks | linux-0.11/mm/memory.c:174-187 | copying a table: every entry outside it keeps frame and dirty bit, the copies have those of the parent, and no counted page is writable in either |
| DirtyPages.ForkMarks | linux-0.11/mm/memory.c:150-189 | fork, successful or not: no entry outside the child loses its frame or its dirty bit, and the child's dirty bits are the parent's |
| DirtyPages.TryToShareMarks | linux-0.11/mm/memory.c:309-337 | try_to_share keeps frame and dirty bit of every entry, and gives the new one those of the old |
| DirtyPages.UnWpPageMarks | linux-0.11/mm/memory.c:221-239 | un_wp_page keeps the dirty bit of a page that is the task's own, and a copy is clean |
| DirtyPages.StepMarks | linux-0.11/mm/memory.c:221-338 | one operation: a present page is dirty afterwards if and only if something was stored there, or it was dirty and write_verify did not replace it by a copy |
| DirtyPages.RunMarks | linux-0.11/mm/memory.c:221-338 | over every run in which the task lives on, a page is dirty if and only if it was stored into and write_verify has not replaced it since |
| DirtyPages.WrittenIsNeverShared | linux-0.11/mm/memory.c:311-312 | once a task has stored into a page, try_to_share refuses it after every run in which write_verify does not replace it |
| DirtyPages.VerifiedCopyIsShared | linux-0.11/mm/memory.c:261-272 | a run after boot: a page stored into before a fork is refused, write_verify of the child's page makes it clean, and then another task gets the bytes |
| PageFrames.BootedIsFine | linux-0.11/boot/head.s:198-212 | the tables of setup_paging and the counts of mem_init satisfy the memory invariant |
| EagerCopy.ForkNeverPanics | linux-0.11/mm/memory.c:164-166 | with an empty child region the copy never reaches the panic about existing tables |
| EagerCopy.ForkRefines | linux-0.11/mm/memory.c:150-189 | a successful fork does to all views what copying every page at once does |
| EagerCopy.FailedForkInvisible | linux-0.11/kernel/fork.c:56-59 | a failed fork changes no view |
| EagerCopy.ExitRefines | linux-0.11/mm/memory.c:105-131 | freeing a task's tables removes its views and no others |
| EagerCopy.StepRefines | linux-0.11/mm/memory.c:63-397 | every operation does to the views what the eager machine does if its frames are there, a condition that does not mention the operation, and else changes none |
| EagerCopy.RunRefines | linux-0.11/mm/memory.c:150-397 | over every run of forks, stores, write_verify, demand pages, loaded pages, shares and exits, copy-on-write memory is indistinguishable from memory copied at once |
| MemoryManager.Manager.constructor | linux-0.11/mm/memory.c:399-411 | setup_paging and mem_init build the state from which the kernel starts |
| MemoryManager.Manager.GetFreePage | linux-0.11/mm/memory.c:63-83 | the scan returns the last free frame, cleared and counted once, or 0 exactly when none is free |
| MemoryManager.Manager.FreePage | linux-0.11/mm/memory.c:89-103 | one count less, with the byte's wrap-around written out; panics exactly on frames that are free or do not exist |
| MemoryManager.Manager.FreePageTables | linux-0.11/mm/memory.c:105-131 | panics exactly for an unaligned address or address 0; else the loops do what the specification of freeing regions says, and never panic inside |
| MemoryManager.Manager.FreeRegion | linux-0.11/mm/memory.c:115-128 | one directory entry of the loop; neither call of free_page can panic |
| MemoryManager.Manager.CopyPageTables | linux-0.11/mm/memory.c:150-189 | the nested loops, with their early exits, do what the specification of a copy says |
| MemoryManager.Manager.CopyRegion | linux-0.11/mm/memory.c:163-187 | one directory entry of the copy |
| MemoryManager.Manager.CopyMem | linux-0.11/kernel/fork.c:39-62 | the copy and its undoing after failure do what the specification of fork says |
| MemoryManager.Manager.UnWriteProtect | linux-0.11/mm/memory.c:221-238 | the stores of un_wp_page, in their order, build the specified state |
| MemoryManager.Manager.WriteVerify | linux-0.11/mm/memory.c:261-272 | write_verify in place, with its test of both levels |
| MemoryManager.Manager.PutAt | linux-0.11/mm/memory.c:197-219 | put_page in place, over whatever is mapped there |
| MemoryManager.Manager.GetEmpty | linux-0.11/mm/memory.c:274-282 | get_empty_page in place, with the page given back when no table can be had |
| MemoryManager.Manager.ShareFrom | linux-0.11/mm/memory.c:292-334 | try_to_share in place, with its refusals, its oom and its panic |
| HocLanguage.HeightIrrelevant | hoc-soledad/hoc5/code.c:24-29 | an expression's meaning depends on the stack height only through overflow |
| HocLanguage.StmtHeightIrrelevant | hoc-soledad/hoc5/code.c:24-29 | the same for statements, with a depth that is enough for each |
| HocLanguage.ExecOrdinary | hoc-soledad/hoc5/code.c:227-247 | direct evaluation of a parsed program meets only the errors of the language, never a malformed stack or cell |
| HocMachine.RunMore | hoc-soledad/hoc5/code.c:52-59 | a machine that stops with some fuel stops alike with more: the fuel is no part of the meaning |
| HocCompiler.ExprRuns | hoc-soledad/hoc5/hoc.c:1555-1645 | the code of every expression, however nested, pushes exactly one value, that of direct evaluation, or fails with its error |
| HocCompiler.StmtRuns | hoc-soledad/hoc5/hoc.c:1487-1550 | the code of every statement has the effect of direct evaluation and leaves the stack as it was |
| HocCompiler.LoopRuns | hoc-soledad/hoc5/code.c:264-278 | whilecode runs the turns that direct evaluation of the loop runs |
| HocCompiler.BranchRuns | hoc-soledad/hoc5/code.c:280-293 | ifcode runs the branch that direct evaluation runs, with and without else |
| HocCorrect.MachineIsSound | hoc-soledad/hoc5/code.c:52-59 | whatever the machine ends with, direct evaluation of the program ends with: variables, output, error |
| HocCorrect.MachineIsComplete | hoc-soledad/hoc5/code.c:52-59 | whatever direct evaluation ends with, the machine ends with |
| HocCorrect.MachineDivergesAlike | hoc-soledad/hoc5/code.c:264-278 | the machine runs for ever exactly when direct evaluation does |
| HocCorrect.OnlyOrdinaryErrors | hoc-soledad/hoc5/code.c:24-36 | compiled code never underflows the stack or meets a malformed cell |
| HocOperators.OneMeaning | hoc-soledad/hoc5/code.c:79-213 | each operator has one meaning: + - * of left and right operand, division by zero exactly for a zero divisor, relations, and the truth tables of and and or |
| HocOperators.BinaryEnds | hoc-soledad/hoc5/code.c:79-213 | an operator's instruction replaces the two numbers on top by its meaning with the upper one as right operand, or raises its error |
| HocOperators.SimpleMeans | hoc-soledad/hoc5/code.c:61-262 | every other instruction without an address, one by one: what it takes from the stack, puts there, stores and prints |
| HocOperators.BinMeans | hoc-soledad/hoc5/hoc.c:1581-1645 | direct evaluation gives an operator the same meaning, after its left and then its right operand |
| HocOperators.NegMeans | hoc-soledad/hoc5/code.c:127-134 | minus and not, in direct evaluation |
| HocOperators.VarMeans | hoc-soledad/hoc5/code.c:227-235 | a variable gives its value, or the error that it has none |
| HocOperators.BuiltinMeans | hoc-soledad/hoc5/code.c:256-262 | a built-in gives what the library gives, or its error |
| HocOperators.AssignMeans | hoc-soledad/hoc5/code.c:237-247 | an assignment has its value, after it the variable does, and no other variable changes; built-ins and keywords are refused |
| HocOperators.IfMeans | hoc-soledad/hoc5/code.c:280-293 | a condition holds unless its value is zero |
| HocOperators.WhileUnfolds | hoc-soledad/hoc5/code.c:264-278 | a loop is its body and the loop again, if its condition holds |
| HocDevice.CodeGen.Code | hoc-soledad/hoc5/code.c:43-50 | one more cell at the end of prog, refused exactly when prog is full |
| HocDevice.CodeGen.CompileExpr | hoc-soledad/hoc5/hoc.c:1555-1645 | the reductions of an expression append exactly its code |
| HocDevice.CodeGen.CompileStmt | hoc-soledad/hoc5/hoc.c:1487-1550 | the reductions of any statement, back-patching included, append exactly its code, and succeed exactly when it fits |
| HocDevice.CodeGen.CompileWhile | hoc-soledad/hoc5/hoc.c:1497-1504 | the two holes of whilecode end up holding the addresses of body and end |
| HocDevice.CodeGen.CompileIf | hoc-soledad/hoc5/hoc.c:1506-1513 | the holes of ifcode without else |
| HocDevice.CodeGen.CompileIfElse | hoc-soledad/hoc5/hoc.c:1515-1523 | the holes of ifcode with else |
| HocDevice.Machine.PushDatum | hoc-soledad/hoc5/code.c:24-29 | push, with its overflow error |
| HocDevice.Machine.PopDatum | hoc-soledad/hoc5/code.c:31-36 | pop, with its underflow error |
| HocDevice.Machine.DoSimple | hoc-soledad/hoc5/code.c:61-262 | every instruction that does not call execute does what its specification says, which is in SimpleMeans |
| HocDevice.Machine.DoBinary | hoc-soledad/hoc5/code.c:79-213 | an operator on two numbers leaves what it means, operator by operator |
| HocDevice.Machine.Execute | hoc-soledad/hoc5/code.c:52-59 | the dispatch loop, with its nested calls, is the specified machine |
| HocDevice.Machine.DoWhile | hoc-soledad/hoc5/code.c:264-278 | the loop of whilecode is the specified one |
| HocDevice.Machine.DoIf | hoc-soledad/hoc5/code.c:280-293 | ifcode is the specified branch |
| HocCallsCorrect.ExprSim | hoc-soledad/src/hoc.y:87-117 | the code of every expression, calls included, gives the value, effects and errors of direct evaluation, dispatch for dispatch |
| HocCallsCorrect.InvokeSim | hoc-soledad/src/code.c:143-156 | a call evaluates its arguments left to right, runs the body in a new frame and lands behind its operands |
| HocCallsCorrect.BodySim | hoc-soledad/src/code.c:158-187 | a body, as the grammar emits it, returns through any nesting of if, while, for and calls, or is closed by procret, or fails at the hole of a bare return |
| HocCallsCorrect.StmtSim | hoc-soledad/src/hoc.y:47-72 | the code that the grammar emits for any statement goes on, returns or fails as evaluation does in which a bare return taken as a part has no address |
| HocCallsCorrect.TurnsSim | hoc-soledad/src/code.c:78-118 | whilecode and forcode run the specified turns and stop at a return |
| HocCallsCorrect.BranchSim | hoc-soledad/src/code.c:120-134 | ifcode runs the specified branch and leaves pc alone after a return |
| HocCallsCorrect.ArgIs | hoc-soledad/src/code.c:189-213 | while a body runs, argument k is the k-th value pushed, or what argassign last stored there |
| HocCallsCorrect.ReturnsByKind | hoc-soledad/src/code.c:169-187 | functions return a value or fail; procedures never return one |
| HocCallsCorrect.CallContract | hoc-soledad/src/code.c:143-187 | a completed call ends past its two operands with the frame pointer restored, returning clear, the arguments replaced by one result, and everything below untouched |
| HocCallsCorrect.LineIsCorrect | hoc-soledad/src/code.c:654-659 | a whole line run by execute has exactly the outcome of that evaluation |
| HocGas.MoreRun | hoc-soledad/src/code.c:654-659 | a machine that stops within some count of dispatches stops alike within every larger one |
| HocGas.LineMeans | hoc-soledad/src/code.c:654-659 | with the count left out: the machine ends a line in one way at most, and in that way if and only if that evaluation does |
| HocReturns.CodeIsPatched | hoc-soledad/src/hoc.y:50-70 | the holes of all control instructions of a statement hold addresses if and only if no bare return is itself a part of if, while or for |
| HocReturns.AgreeS | hoc-soledad/src/hoc.y:50-70 | for every statement, program and count: evaluation of the emitted code and the meaning of the language are the same, or the former has no address; and the same if no bare return is a part |
| HocReturns.LineIsRightIff | hoc-soledad/src/code.c:654-659 | for every line and program: execute does what the language says if and only if it does not meet the hole of a bare return, which it cannot where no bare return is a part |
| HocReturns.LineMeansWhatItSays | hoc-soledad/src/code.c:654-659 | with the count left out, and no bare return as a part: the machine ends a line in some way if and only if the language does |
| HocReturns.BareReturnBreaks | hoc-soledad/src/hoc.y:50-50 | a call of proc p() { if ($1) return } with any argument but zero: the language goes on, the machine takes the Symbol of the keyword for an address |
| HocCallOperators.CallBinMeans | hoc-soledad/src/code.c:275-505 | operators mean the same in expressions with calls |
| HocCallOperators.CallNegMeans | hoc-soledad/src/code.c:333-340 | so does minus |
| HocCallOperators.CallVarMeans | hoc-soledad/src/code.c:342-359 | so do variables |
| HocCallOperators.CallAssignMeans | hoc-soledad/src/code.c:506-520 | and assignments |
| HocCallOperators.CallIfMeans | hoc-soledad/src/code.c:120-134 | so do conditions |
| HocCallOperators.CallWhileMeans | hoc-soledad/src/code.c:78-95 | a loop whose condition is zero is over; else its body runs, and the loop again unless that returned or failed |
| HocCallOperators.ArgsMean | hoc-soledad/src/code.c:143-156 | arguments are evaluated from the first to the last |
| HocCallOperators.CallMeans | hoc-soledad/src/code.c:143-187 | the call of a function that returns e has the value of e with the arguments in place, and leaves the caller its own arguments |
| HocCallOperators.SubtractsInOrder | hoc-soledad/src/code.c:189-213 | a function that returns $1 - $2 subtracts the second argument from the first |
| HocCallDevice.CallMachine.Ret | hoc-soledad/src/code.c:158-167 | pops the arguments, restores pc and frame, raises returning |
| HocCallDevice.CallMachine.ReturnValue | hoc-soledad/src/code.c:169-178 | funcret |
| HocCallDevice.CallMachine.ReturnNothing | hoc-soledad/src/code.c:180-187 | procret |
| HocCallDevice.CallMachine.PushArg | hoc-soledad/src/code.c:189-204 | getarg and arg, with the check of the argument number |
| HocCallDevice.CallMachine.StoreArg | hoc-soledad/src/code.c:206-213 | argassign |
| HocCallDevice.CallMachine.Call | hoc-soledad/src/code.c:143-156 | call, with its depth limit and the cleared flag |
| HocCallDevice.CallMachine.Execute | hoc-soledad/src/code.c:654-659 | the dispatch loop, stopped by STOP or by returning, is the specified machine |
| HocCallDevice.CallMachine.Turns | hoc-soledad/src/code.c:78-118 | the loops of whilecode and forcode are the specified ones |
| HocCallDevice.CallMachine.For | hoc-soledad/src/code.c:97-118 | forcode |
| HocCallDevice.CallMachine.If | hoc-soledad/src/code.c:120-134 | ifcode |
| BufferCache.Find | linux-0.11/fs/buffer.c:166-174 | a scan of all buffers returns a matching one or there is none |
| BufferCache.BestIsBest | linux-0.11/fs/buffer.c:213-222 | the free-list scan settles on the first unused buffer of least badness, or all are in use |
| BufferCache.BestMayStop | linux-0.11/fs/buffer.c:218-219 | stopping at badness 0 changes no result |
| BufferCache.BestPrefers | linux-0.11/fs/buffer.c:204-221 | the scan takes a clean unused buffer before a dirty one, then an unlocked one before a locked, and the first on the ring among equals |
| BufferCache.BestOfAll | linux-0.11/fs/buffer.c:211-221 | no unused buffer of the whole cache is to be preferred to the one taken |
| BufferCache.LabelKeepsRing | linux-0.11/fs/buffer.c:242-248 | relabelling keeps every buffer on the ring exactly once |
| BufferCache.LabelKeepsUnique | linux-0.11/fs/buffer.c:235-246 | a label that no buffer has stays unique when it is given to one |
| BufferTasks.StepKeeps | linux-0.11/fs/buffer.c:183-261 | each step of any task, with transfers in between, keeps labels unique, b_count equal to the references and every reference on its block, if and only if it takes no 256th reference |
| BufferTasks.RelabelsOnlyIdle | linux-0.11/fs/buffer.c:225-247 | a label changes only on a buffer that is unused, unlocked and clean, with no reference to it, and only to a label that nobody carries |
| BufferTasks.NoHashRetry | linux-0.11/fs/buffer.c:187-196 | get_hash_table never finds its buffer relabelled after the wait |
| BufferTasks.NoReleasePanic | linux-0.11/fs/buffer.c:253-261 | brelse of a held buffer never panics |
| BufferTasks.RunKeeps | linux-0.11/fs/buffer.c:183-261 | the invariant holds after every interleaved run without a 256th reference |
| BufferTasks.InitiallyFine | linux-0.11/fs/buffer.c:348-381 | the state buffer_init leaves, with no label and no reference, satisfies the invariant of every run |
| BufferTasks.HeldKeepsLabel | linux-0.11/fs/buffer.c:200-261 | a reference still held after any run names the device and block it was asked for |
| BufferTasks.HandsOutBlank | linux-0.11/fs/buffer.c:240-249 | getblk hands out a new buffer clean, unlocked, used once, not up to date, under the label asked for, and changes no other |
| BufferTasks.UpToDateMeansRead | linux-0.11/fs/buffer.c:243-245 | in every run a buffer is up to date if and only if a transfer has made it so since it was last given a label, and that transfer was of the block it is labelled with |
| BufferTasks.WrapLosesTheLabel | linux-0.11/fs/buffer.c:191-191 | a run from a fresh cache: with the 256th getblk of one block b_count is 0 again, and the buffer, still held 256 times, is given another label |
| BufferQueues.UnchainKeeps | linux-0.11/fs/buffer.c:133-139 | unlinking a buffer leaves every hash chain intact |
| BufferQueues.EnchainKeeps | linux-0.11/fs/buffer.c:156-163 | linking it first on its new chain leaves every hash chain intact, whatever the last store does outside the heads |
| BufferQueues.UnringKeeps | linux-0.11/fs/buffer.c:140-146 | unlinking a buffer leaves the ring intact in its order, also when it was the head or the only one |
| BufferQueues.EnringKeeps | linux-0.11/fs/buffer.c:151-155 | linking a buffer before the head makes it the tail |
| BufferHeads.Buffers.Init | linux-0.11/fs/buffer.c:348-381 | one ring of all buffers in address order, empty chains, blocks and heads in disjoint memory, as many as fit |
| BufferHeads.Buffers.RemoveFromQueues | linux-0.11/fs/buffer.c:131-147 | the buffer leaves its chain and the ring, the rest keeps its order; the corruption panic cannot happen |
| BufferHeads.Buffers.InsertIntoQueues | linux-0.11/fs/buffer.c:149-164 | the buffer becomes the ring's tail and the first of its own chain; the last store goes outside the buffer heads if and only if the buffer has a device and that chain was empty |
| BufferHeads.Buffers.FindBuffer | linux-0.11/fs/buffer.c:166-174 | the walk of one chain agrees with a scan of all buffers |
| BufferHeads.Buffers.PickFree | linux-0.11/fs/buffer.c:213-222 | the do loop over the ring chooses the specified buffer |
| BufferHeads.Buffers.Look | linux-0.11/fs/buffer.c:206-224 | getblk up to its first sleep; its candidate is an unused buffer that no other is to be preferred to |
| BufferHeads.Buffers.Finish | linux-0.11/fs/buffer.c:225-250 | getblk after its last sleep: every refusal, or the buffer with its new label, used once, clean and not up to date, at the ring's tail, and no other buffer changed |
| BufferHeads.Buffers.Relabel | linux-0.11/fs/buffer.c:240-248 | remove, relabel as not up to date and insert; it stores outside the heads if and only if no other labelled buffer hashes to the new label |
| BufferHeads.Buffers.Release | linux-0.11/fs/buffer.c:253-261 | brelse once the buffer is unlocked |
| BufferHeads.PlacesApart | linux-0.11/fs/buffer.c:353-375 | blocks never overlap and never fall into the adapter hole |
| BufferHeads.FirstGetblk | linux-0.11/fs/buffer.c:163-163 | the first getblk after buffer_init, for any device and block, stores through a null b_next |
| ZoneTree.SetAtZone | linux-0.11/fs/inode.c:82-136 | naming a fresh zone at one place changes what no other place names, across direct, indirect and double-indirect places |
| ZoneTree.SetAtBytes | linux-0.11/fs/inode.c:82-136 | and no byte of any file |
| ZoneTree.LeafOfIsInjective | linux-0.11/fs/inode.c:81-130 | different blocks of files are named at different places |
| ZoneTree.BlockLayout | linux-0.11/fs/inode.c:81-130 | the zone of a block is i_zone[block], a short of the block i_zone[7] names, or a short of a block named by one of i_zone[8], in file order, low byte first |
| ZoneTree.UnusedIsFine | linux-0.11/fs/bitmap.c:47-105 | an unused device satisfies the invariant |
| ZoneAlloc.FirstZero | linux-0.11/fs/bitmap.c:31-45 | the first clear bit of the map |
| ZoneAlloc.NewBlockIsFresh | linux-0.11/fs/bitmap.c:75-105 | new_block returns only unreferenced zones of the data range, cleared, marks exactly that one, and fails only when none is left |
| ZoneAlloc.FailureTakesABit | linux-0.11/fs/bitmap.c:88-95 | new_block fails and takes a bit all the same if and only if some bit is clear and every clear bit stands for a zone past s_nzones |
| ZoneAlloc.SecondBlockTakesABit | linux-0.11/fs/bitmap.c:88-95 | a device with one data zone: the first block of a file takes it, and the next new_block fails and sets bit 2 |
| ZoneAlloc.AllocateKeeps | linux-0.11/fs/inode.c:82-136 | allocating a zone at a place keeps conservation and all file contents |
| ZoneAlloc.CreateKeeps | linux-0.11/fs/inode.c:145-148 | create_block keeps conservation, sizes and all file contents, and fails only on a full device |
| ZoneFiles.PutBlockByte | linux-0.11/fs/file_dev.c:69-81 | writing a data block changes bytes of that block of that file only |
| ZoneFiles.PutBlockKeeps | linux-0.11/fs/file_dev.c:69-81 | and keeps conservation |
| ZoneFiles.TruncateKeeps | linux-0.11/fs/truncate.c:47-64 | truncate keeps conservation, empties the file, and changes no byte of any other |
| MinixFile.Device.NewBlock | linux-0.11/fs/bitmap.c:75-105 | the search through the map blocks and the allocation do what the specification says; the panic cannot happen |
| MinixFile.Device.FreeBlock | linux-0.11/fs/bitmap.c:47-73 | clears one bit, or returns early when somebody else holds the block's buffer; panics exactly on zones out of range or already clear |
| MinixFile.Device.Bmap | linux-0.11/fs/inode.c:72-138 | the three cases of _bmap, with and without create, and its two panics |
| MinixFile.Device.FileRead | linux-0.11/fs/file_dev.c:17-46 | delivers exactly the bytes of the flat file at the position, zeros for holes; panics exactly past the largest block |
| MinixFile.Device.FileWrite | linux-0.11/fs/file_dev.c:48-90 | changes exactly the bytes it reports, in this file only; the size becomes the larger of the old one and the end; stops early only on a full device or past the largest block |
| MinixFile.Device.FreeInd | linux-0.11/fs/truncate.c:11-27 | frees each zone of an indirect block once and the block itself; free_block never panics |
| MinixFile.Device.FreeDind | linux-0.11/fs/truncate.c:29-45 | the same for a double-indirect block |
| MinixFile.Device.Truncate | linux-0.11/fs/truncate.c:47-64 | clears exactly the bits of the zones reachable from the inode, each once, and empties the inode |
| MinixFile.WrittenViews | linux-0.11/fs/file_dev.c:48-90 | what file_write promises, as one overwrite of one flat array |
| MinixRuns.Apply | linux-0.11/fs/file_dev.c:17-90 | one operation on the device is one operation on flat byte arrays, short only on a full device; a panic of _bmap comes exactly at the limit, with everything below it written |
| MinixRuns.Replay | linux-0.11/fs/file_dev.c:17-90 | any sequence of reads, writes, appends and truncations runs step by step as on flat byte arrays, and stops early only where an operation reaches past the limit |
| MinixRuns.TraceIsRun | linux-0.11/fs/file_dev.c:17-90 | such a sequence gives the results and the files that flat byte arrays alone give |
| MinixRuns.TailsStayZero | linux-0.11/fs/file_dev.c:75-78 | over every run, bytes past the end of a file are zero, so whatever a write skips reads as zero |
| HeapState.LiveFits | linux-0.11/lib/malloc.c:117-173 | a live object lies in one page, is aligned to its bucket size and is at least as large as asked for |
| HeapState.LiveApart | linux-0.11/lib/malloc.c:117-173 | the slots of live objects, which hold what was asked for, never overlap, whatever their sizes |
| HeapState.RefcntCountsLive | linux-0.11/lib/malloc.c:170-170 | refcnt is the number of live objects in the page |
| HeapState.TakeKeeps | linux-0.11/lib/malloc.c:168-170 | taking the first free object keeps the heap invariant and yields an object that was not live |
| HeapMoves.GiveKeeps | linux-0.11/lib/malloc.c:205-207 | putting an object on the free chain keeps the heap invariant |
| HeapMoves.GiveSpares | linux-0.11/lib/malloc.c:205-205 | and changes no byte of any other object |
| HeapMoves.FreeTwiceBreaks | linux-0.11/lib/malloc.c:205-207 | free_s leaves the page with a free chain if and only if the address is a slot of the page that is not free already |
| HeapMoves.GivenTwice | linux-0.11/lib/malloc.c:205-207 | two objects are allocated on the empty heap and the first is freed twice: its page has no free chain, and count 0 with an object in use |
| HeapMoves.DropKeeps | linux-0.11/lib/malloc.c:218-227 | unlinking the descriptor of an empty page keeps the heap invariant |
| HeapMoves.AddBucketKeeps | linux-0.11/lib/malloc.c:152-166 | a new page of objects keeps the heap invariant |
| HeapMoves.AddDescsKeeps | linux-0.11/lib/malloc.c:97-115 | a new page of descriptors keeps the heap invariant |
| KernelHeap.SizesDouble | linux-0.11/lib/malloc.c:77-87 | the bucket sizes are 16 and its doubles up to a page, smallest first |
| Malloc.Heap.constructor | linux-0.11/lib/malloc.c:77-92 | the empty heap |
| Malloc.Heap.FindBucket | linux-0.11/lib/malloc.c:127-129 | the smallest bucket size that is large enough |
| Malloc.Heap.InitBucketDesc | linux-0.11/lib/malloc.c:97-115 | 256 blank descriptors in front of the free list |
| Malloc.Heap.FindSpace | linux-0.11/lib/malloc.c:139-141 | the first descriptor of the bucket with a free object, or none has one |
| Malloc.Heap.Thread | linux-0.11/lib/malloc.c:160-164 | the loop leaves one chain through all objects of the page and touches nothing else |
| Malloc.Heap.NewBucket | linux-0.11/lib/malloc.c:146-167 | a new page joins the bucket, first in its chain; no live object changes |
| Malloc.Heap.Alloc | linux-0.11/lib/malloc.c:117-173 | returns a new object disjoint from all live ones, whose bytes it leaves alone, with a slot of the smallest size that is enough: the first free one of the first page that has any, or of a new page; panics exactly on too large a request or without memory |
| Malloc.Heap.Search | linux-0.11/lib/malloc.c:191-201 | finds the descriptor of the page, skipping buckets too small |
| Malloc.Heap.Unlink | linux-0.11/lib/malloc.c:213-227 | the descriptor moves to the free list; the corruption panic cannot happen |
| Malloc.Heap.FreeS | linux-0.11/lib/malloc.c:182-231 | the object is no longer live, all others keep their bytes, and the page goes back exactly when no live object is left in it, else the object is the first to be taken next; panics exactly on unknown pages or too large a size |
| Malloc.Heap.Poke | linux-0.11/lib/malloc.c:168-172 | stores of the owner inside a live object never disturb the allocator, whose links live in the same pages |
| Malloc.PageEmpty | linux-0.11/lib/malloc.c:208-208 | refcnt is 0 exactly when no live object lies in the page |
| PriorityQueue.InsertAt | unpv22e/my_pxmsg_mmap/mq_send.c:65-81 | inserting before the first lower priority keeps everything before and after in order |
| PriorityQueue.InsertKeepsOrder | unpv22e/my_pxmsg_mmap/mq_send.c:65-81 | the queue stays ordered by falling priority, oldest first among equals |
| PriorityQueue.RunIsFine | unpv22e/my_pxmsg_mmap/mq_send.c:56-85 | in every run the queue is in receiving order and every message sent is queued or received, exactly once |
| PriorityQueue.ReceiveIsBest | unpv22e/my_pxmsg_mmap/mq_receive.c:48-56 | a receive delivers the oldest message of highest priority |
| MessageQueue.SlotsDisjoint | unpv22e/my_pxmsg_mmap/mqueue.h:40-40 | no two slots of the file overlap |
| MessageQueue.BodyMeetsNoHeader | unpv22e/my_pxmsg_mmap/mqueue.h:14-29 | the bytes of a message meet no slot header, mqh_head or mqh_free, so the links and the bytes of the file can be kept apart |
| MessageQueue.SlotInFile | unpv22e/my_pxmsg_mmap/mq_open.c:59-61 | each slot lies behind the header, inside the file, with room for a whole message |
| MessageQueue.Queue.constructor | unpv22e/my_pxmsg_mmap/mq_open.c:84-99 | all slots are on the free list, none on the message list |
| MessageQueue.Queue.FindPlace | unpv22e/my_pxmsg_mmap/mq_send.c:65-76 | the walk stops at the first message of lower priority |
| MessageQueue.Queue.LinkMessage | unpv22e/my_pxmsg_mmap/mq_send.c:65-85 | linking the slot in is inserting its message, also at the head, where msg_next is aliased with mqh_head |
| MessageQueue.Queue.Send | unpv22e/my_pxmsg_mmap/mq_send.c:30-88 | refines insertion by priority, keeps the two lists a partition of all slots, with its error results; its err_dump cannot happen |
| MessageQueue.Queue.Receive | unpv22e/my_pxmsg_mmap/mq_receive.c:30-68 | delivers and removes the first message, and returns its slot; its err_dump cannot happen |
| MessageQueue.Open | unpv22e/my_pxmsg_mmap/mq_open.c:48-99 | refused exactly for a given size or count that is not positive, else an empty queue, by default of 128 messages of 1024 bytes |
| MessageQueue.Replay | unpv22e/my_pxmsg_mmap/mq_send.c:5-93 | any run of calls on a new queue: each call is refused exactly as its size, the room and the messages left decide, and the others make the run of the priority queue, with its deliveries and its queue |
| MessageQueue.NeverTooMany | unpv22e/my_pxmsg_mmap/mq_send.c:43-52 | in every run at most mq_maxmsg messages are queued, none longer than mq_msgsize |
| RwLock.StepKeeps | unpv22e/my_rwlock/pthread_rwlock_rdlock.c:17-25 | every step of any thread, spurious wake-ups included, keeps counters exact and strands nobody |
| RwLock.UnlockKeeps | unpv22e/my_rwlock/pthread_rwlock_unlock.c:16-28 | unlock keeps the counts and wakes enough threads |
| RwLock.FailKeepsIff | unpv22e/my_rwlock/pthread_rwlock_wrlock.c:20-21 | a failing wait keeps the promises if and only if it is not a woken writer whom sleepers depend on |
| RwLock.FailureStrands | unpv22e/my_rwlock/pthread_rwlock_wrlock.c:20-21 | a run of three threads from a new lock, after which a failing wait leaves a writer asleep on a free lock |
| RwLock.SomeoneCanGo | unpv22e/my_rwlock/pthread_rwlock_unlock.c:23-28 | whenever a thread sleeps, some thread can unlock, or a woken writer gets the free lock at once |
| RwLock.RunKeeps | unpv22e/my_rwlock/pthread_rwlock_unlock.c:16-28 | the invariant holds after every run in which no wait fails at a moment when that strands somebody |
| RwLock.MutualExclusion | unpv22e/my_rwlock/pthread_rwlock.h:12-13 | in every run, failing waits included, rw_refcount is -1 exactly when one writer and no reader holds the lock, and else counts the readers |
| RwLock.ReaderGetsItIff | unpv22e/my_rwlock/pthread_rwlock_rdlock.c:16-25 | rdlock and tryrdlock get the lock if and only if no thread holds it for writing or waits to; else the one waits and the other changes nothing |
| RwLock.WriterGetsItIff | unpv22e/my_rwlock/pthread_rwlock_wrlock.c:16-24 | wrlock and trywrlock get the lock if and only if nobody holds it; else the one waits and the other changes nothing |
| RwLock.UnlockWakes | unpv22e/my_rwlock/pthread_rwlock_unlock.c:23-28 | unlock wakes one writer if one sleeps and nobody holds the lock any more, all sleeping readers if no writer waits, and else nobody |
| RwLock.NoReaderOvertakes | unpv22e/my_rwlock/pthread_rwlock_rdlock.c:16-17 | no step made while a writer waits lets a reader in |
| RwLock.WritersArePreferredAlways | unpv22e/my_rwlock/pthread_rwlock_rdlock.c:16-17 | in every run from a new lock, for as long as some writer waits the threads that hold read locks only get fewer |
| RwLock.Lock.ReadTurn | unpv22e/my_rwlock/pthread_rwlock_rdlock.c:16-25 | rdlock waits if and only if rw_refcount is negative or rw_nwaitwriters positive, else the reader is counted, as a step that keeps the invariant |
| RwLock.Lock.WriteTurn | unpv22e/my_rwlock/pthread_rwlock_wrlock.c:16-24 | wrlock waits if and only if rw_refcount is not 0, else it becomes -1, as a step that keeps the invariant |
| RwLock.Lock.TryReadLock | unpv22e/my_rwlock/pthread_rwlock_tryrdlock.c:16-19 | tryrdlock, as a step that keeps the invariant |
| RwLock.Lock.TryWriteLock | unpv22e/my_rwlock/pthread_rwlock_trywrlock.c:16-19 | trywrlock, as a step that keeps the invariant |
| RwLock.Lock.Release | unpv22e/my_rwlock/pthread_rwlock_unlock.c:16-28 | unlock, with its signal or broadcast, as a step that keeps the invariant |
| ProdCons.StepKeeps | unpv22e/pxsem/prodcons4.c:68-119 | every statement of every thread keeps the accounting of slots and items, the counters and the ring |
| ProdCons.StoreKept | unpv22e/pxsem/prodcons4.c:82-82 | no store overwrites an item that has not been read |
| ProdCons.CheckKept | unpv22e/pxsem/prodcons4.c:109-111 | every consumer finds the expected value |
| ProdCons.ItemIsThere | unpv22e/pxsem/prodcons4.c:76-76 | the extra posts at termination never let a consumer past an empty ring |
| ProdCons.SomeoneCanGo | unpv22e/pxsem/prodcons4.c:68-119 | with at least one producer and one consumer some thread can step until all have finished |
| ProdCons.EndIsComplete | unpv22e/pxsem/prodcons4.c:103-107 | when all have finished every item has been consumed once, in order |
| ProdCons.EveryRun | unpv22e/pxsem/prodcons4.c:22-119 | every interleaving is finite, never reports an error, and ends with every item consumed exactly once |
| SleepQueue.StepKeeps | linux-0.11/kernel/sched.c:151-165 | sleep_on and wake_up keep every sleeper named and nobody else |
| SleepQueue.ExactlyOneHolder | linux-0.11/kernel/sched.c:159-160 | each sleeping task is named by exactly one holder: the head or one saved tmp |
| SleepQueue.NobodyForgotten | linux-0.11/kernel/sched.c:163-164 | once every woken task has gone on, all who still sleep went to sleep after the last wake_up |
| SleepQueue.WakeReachesAll | linux-0.11/kernel/sched.c:188-194 | one wake_up and the running of the woken tasks, with other sleepers arriving in between, ends every sleep there was |
| SleepQueue.WakeReachesAllFromStart | linux-0.11/kernel/sched.c:151-194 | so it is in every run from a queue nobody waits on |
| SleepQueue.ResumesEnd | linux-0.11/kernel/sched.c:162-164 | the woken tasks run out |
| SleepQueue.RunKeeps | linux-0.11/kernel/sched.c:151-194 | the invariant holds after every run |
| Scheduler.PickIsBest | linux-0.11/kernel/sched.c:125-134 | the scan picks a runnable task of greatest counter, task 0 only when none is runnable |
| Scheduler.OneRechargeIsEnough | linux-0.11/kernel/sched.c:135-140 | with positive priorities one recharge ends the loop |
| Scheduler.RechargeKeeps | linux-0.11/kernel/sched.c:136-139 | a recharge keeps counters between 0 and twice any bound on the priorities |
| Scheduler.RechargeOnlyWhenSpent | linux-0.11/kernel/sched.c:135-135 | a recharge happens exactly when some task is runnable and none of those has anything left |
| Scheduler.UsesWholeCounter | linux-0.11/kernel/sched.c:332-335 | between two recharges a task that stays runnable runs for exactly its counter |
| Scheduler.EveryRunWithin | linux-0.11/kernel/sched.c:104-141 | in every run of ticks, switches, sleeps, forks, exits and nice, counters stay between 0 and twice the largest priority any task has had |
| Scheduler.NiceBreaksTheBound | linux-0.11/kernel/sched.c:378-383 | a run from INIT_TASK in which nice leaves a counter above twice every present priority |
| Scheduler.NiceKeepsIff | linux-0.11/kernel/sched.c:378-383 | when the largest present priority bounds the counters, nice keeps it so if and only if it does not lower the priority, or the largest counter fits another task's priority or the new one |
| Scheduler.ReleaseKeepsIff | linux-0.11/kernel/exit.c:19-33 | release, of another task or of the current one, keeps it so if and only if the largest counter that remains after its call of schedule fits the largest priority that remains |
| Scheduler.OthersKeep | linux-0.11/kernel/sched.c:104-141 | ticks, switches, sleeps, wake-ups and forks keep it always |
| Scheduler.RunBoundedIff | linux-0.11/kernel/sched.c:104-141 | over every run: twice the largest present priority bounds the counters throughout if and only if each nice and each release meets its condition |
| Scheduler.ReleaseBreaksTheBound | linux-0.11/kernel/exit.c:19-33 | a run from INIT_TASK in which a parent releases its dead child and is left with a counter above twice every priority |
| SleepersCredit.SleepStep | linux-0.11/kernel/sched.c:135-139 | one act: a task asleep gets half its counter plus its priority if the act ends in a recharge, and stays as it is if not |
| SleepersCredit.GapHalves | linux-0.11/kernel/sched.c:135-139 | over every run that recharges k times, what a sleeping task lacks of twice its priority is divided by two to the k, rounded up |
| SleepersCredit.SleeperGains | linux-0.11/kernel/sched.c:135-139 | so its counter never falls while it is at most that, rises with the first recharge unless it is one below, and gets there |
| SleepersCredit.FavouredIff | linux-0.11/kernel/sched.c:125-139 | after a recharge a sleeper has more than a runnable task of its priority if and only if it had 2 left |
| SleepersCredit.SleeperGoesFirst | linux-0.11/kernel/sched.c:125-139 | a task that has slept through two recharges and is woken is chosen before any task of its priority that had spent its counter |
| Scheduler.Kernel.Schedule | linux-0.11/kernel/sched.c:124-141 | the loop ends after at most one recharge with the best task current |
| Scheduler.Kernel.Scan | linux-0.11/kernel/sched.c:125-134 | the inner loop |
| Scheduler.Kernel.RechargeAll | linux-0.11/kernel/sched.c:136-139 | every task but task 0 gets half its counter plus its priority, and nothing else changes |
| Scheduler.Kernel.Tick | linux-0.11/kernel/sched.c:332-335 | the counter part of do_timer |
| Scheduler.Kernel.Nice | linux-0.11/kernel/sched.c:378-383 | sys_nice |
| Pipe.Ring.ReadChunk | linux-0.11/fs/pipe.c:24-35 | takes the oldest bytes: as many as asked for, as are there, and as lie before the end of the page, whichever is least |
| Pipe.Ring.WriteChunk | linux-0.11/fs/pipe.c:54-65 | appends as many bytes as given, as fit, and as lie before the end of the page, whichever is least |
| Pipe.Ring.Read | linux-0.11/fs/pipe.c:13-39 | is the read on the stream, with whatever other tasks do in each sleep |
| Pipe.Ring.Write | linux-0.11/fs/pipe.c:41-69 | is the write on the stream, with whatever other tasks do in each sleep, and its result |
| Pipe.Ring.Interleave | linux-0.11/fs/pipe.c:13-69 | any interleaving of turns of readers and writers is that interleaving on the stream, turn for turn |
| Pipe.FirstInFirstOut | linux-0.11/fs/pipe.c:13-69 | over every interleaving on a new pipe, what the reads returned is a prefix of what the writes stored, less than a page behind |
| Pipe.RunIsJoined | linux-0.11/fs/pipe.c:13-69 | the stream is the bytes moved by the operations of each side, one after another |
| Pipe.ReadIsShortOnly | linux-0.11/fs/pipe.c:17-23 | a read returns all it was asked for, unless its sleeps are used up, the writer is gone and the pipe is empty |
| Pipe.WriteIsShortOnly | linux-0.11/fs/pipe.c:45-53 | a write stores a prefix of its buffer, all of it unless its sleeps are used up, the reader is gone and the pipe is full |
| Pipe.ReadIsInterleaving | linux-0.11/fs/pipe.c:13-39 | a read is one interleaving of its own turns with the sleeps it used; whatever came in came from those |
| Pipe.WriteIsInterleaving | linux-0.11/fs/pipe.c:41-69 | the same for a write; whatever was taken out was taken in its sleeps |
| Pipe.ReadIsNext | linux-0.11/fs/pipe.c:13-39 | while no other reader comes in, a read returns the next bytes of the stream across sleeps and wrap-arounds |
| Pipe.WriteIsNext | linux-0.11/fs/pipe.c:41-69 | while no other writer comes in, a write adds exactly what it reports, in one piece |
| Pipe.EnoughToRead | linux-0.11/fs/pipe.c:24-35 | a read of no more than is there never sleeps and returns it all, across the end of the page |
| Pipe.EnoughRoom | linux-0.11/fs/pipe.c:54-65 | a write of no more than fits never sleeps and stores it all |
| Pipe.SpanGrow | linux-0.11/fs/pipe.c:61-65 | storing at the head appends, across wrap-around, and overwrites nothing unread |

## Left out

- Page tables: the TLB and the call of invalidate, the accessed bit, and the contents of executables that do_no_page reads.
- EagerCopy.RunRefines: the fork of task 0, which is no copy; LowMemory says what it is.
- EagerCopy.StepRefines: a fork into task slots whose directory entries are in use; find_empty_process never picks one.
- MemoryManager.Manager.FreePageTables: regions of task 0 other than the first, and ranges past the 4 gigabytes; neither is ever asked for.
- hoc: the lexer, the parser tables and the text of messages; the model starts from syntax trees and the order of reductions.
- hoc: numbers and the math library are uninterpreted, with the errors that the wrappers can raise.
- hoc with functions: read, built-ins, string printing, logical not, the assignment operators and the increments, which would repeat cases already there, and the code generator in place; which cell each action of the grammar puts into which hole is in FStmtCode.
- HocCallsCorrect.LineIsCorrect: definitions made while a line of the same function is running; the set of definitions is fixed.
- BufferTasks.StepKeeps: bread, breada, bread_page, sync and floppy changes, which are made of the steps modelled here and of transfers.
- BufferTasks.RunKeeps: that a task in getblk ever gets a buffer.
- MinixFile.Device.Truncate: that somebody else holds a buffer of the file, for which free_block returns early.
- MinixFile.Device.FreeInd: the same.
- MinixFile.Device.FreeDind: the same.
- MinixFile.Device.FileRead: read errors of the device, and times.
- Inodes on disk, the inode bitmap, directories, paths and mounting.
- Malloc.Heap.FreeS: the second search for prev after an interrupt; what an address that is no live object does to its page is in FreeTwiceBreaks and GivenTwice.
- Malloc.Heap.Alloc: re-entrant calls while get_free_page sleeps.
- MessageQueue.Open: an existing file, which is the same queue mapped once more.
- MessageQueue.Queue.Send: notification through mqh_pid, and whether a blocked caller is ever woken.
- RwLock.StepKeeps: pthread errors from the mutex, cancellation, and unlocking by a thread that holds nothing.
- SleepQueue.StepKeeps: interruptible_sleep_on.
- Scheduler.Kernel.Schedule: alarms and signals, which only make tasks runnable.
- Scheduler.Kernel.Nice: overflow of priority minus increment for increments near the ends of a long.
- Pipe.Ring.Read: page faults while bytes are copied to the user, between which the other end could run.
- add_timer, terminals, signals, exec, and the other programs of the repository.
