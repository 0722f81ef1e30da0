# Systems programming exercises: a verified model

The repository holds four C programs that keep unbounded linked state by hand. This project models
them in Dafny and proves what they are for:

- **UserFS** (`3/`): files as doubly linked lists of 512-byte blocks, with many descriptors walking the
  same list. `UfsModel` is the state as values and each operation as one transition; `UfsInvariant` is what
  every operation keeps; `UfsFlat` shows that blocks and cursors behave like flat bytes and positions,
  `UfsNames` what callers see of names, `UfsErrors` what the calls refuse, `UfsIndex` how a descriptor's index and block go together;
  `UfsBlocks` and `UserFs` are the program's heap structures and loops, proved to make exactly the
  transitions of `UfsModel`; `UserFsRuns` joins the two for whole runs.
- **Thread pool** (`4/`): N workers and a client as a transition system, one step per atomic operation or
  critical-section boundary, in every interleaving (`ThreadPool`, `ThreadPoolInvariant`,
  `ThreadPoolSafety`), what runs come to (`ThreadPoolProgress`), exactly when a push is missed, a
  deletion hangs or a broken rule does harm (`ThreadPoolProgress`, `ThreadPoolRules`, `ThreadPoolLimits`),
  what a join leaves that times out (`ThreadPoolTimeouts`), and what each call answers (`ThreadPoolAnswers`).
- **Coroutines and sorting** (`1/`): the sentinel ring (`CoroRing`, `Libcoro`), the program that claims and
  sorts files on it (`Claiming`, `ClaimingRuns`, `ClaimingTurns`, `ClaimingLoop`), the reference scheduler (`SchedulerModel`,
  `ReferenceLibcoro`), the two merge sorts (`Sorting`, `TopDownSort`), the k-way merge (`KWayMerge`), the
  pool of file names (`FilePool`) and the program that takes, sorts and writes files from it on that
  scheduler (`ReferenceSorting`, `ReferenceTurns`).
- **Shell** (`2/`): the tokenizer (`ShellLexer`, `ShellQuoting`), the slicing of tokens into commands
  (`ShellEvaluator`), where it leaves the list and what it makes of all others (`ShellFaults`, `ShellSplits`),
  the AND-OR mode machine (`ShellCommand`), the way from text to effects (`ShellRoundTrip`) and the loop of the
  shell (`ShellSession`).

Imperative code is imperative here: classes with `modifies` clauses and loops with invariants, each proved
against a function on values, about which the properties are then proved. Switching contexts
(`swapcontext`, `siglongjmp`) is a change of the coroutine that runs; what a coroutine has yet to do is a
finite `Script` kept where the program keeps its saved context, or an entry of `jobs`.

## What the code does where one might expect otherwise

- UserFS: a read, or a write out of room, that runs past a completely full last block leaves the descriptor
  without a block, and its next call starts over at the head of the file, while `current_block_index` keeps
  counting. `ReadRefines` says exactly when. `ufs_resize` to a smaller size with the same number of blocks
  changes nothing, and a shrink keeps at least one block (`ResizeContent`). A descriptor cut off by a shrink
  lands at the smaller of its old in-block offset and the new end, which may lie well before the new end
  (`ResizePositionBehind`, `BehindTheEndFails`). A descriptor that was used again after walking off may be
  moved by a shrink although it stands before the new end (`ResizePosition`, `ReusedMoves`); one that was
  not is always on the block at its index (`IndexIsBlock`). A write out of room stores what fits and returns -1.
  The header allows a read-only descriptor only reading, but `ufs_resize` does not look at permissions: it is
  the one call that changes a file through such a descriptor (`ReadOnlyChanges`).
- Thread pool: a push is missed exactly when every worker is on its way to sleep once it has returned
  (`MissedExactly`), and served by workers left to themselves otherwise (`LeftAlone`); a push that starts a
  thread is never missed. `thread_pool_delete` hangs exactly when at its broadcast a worker stands between its
  look at `is_deleting` and its wait (`DeleteHangsExactly`). `thread_task_join` does not wait in a loop, so
  that a wake-up that no broadcast caused lets it return early exactly if the execution is still to come
  (`EarlyExactly`). `thread_task_delete` can destroy a locked mutex exactly for a task that is queued or with a
  worker (`DeleteSafeExactly`). `ThreadPoolLimits` has a run for each.
- Timed join: one that times out leaves the pool as it would be without the call, and the task can be joined
  again (`TimeoutChangesNothing`).
- Bottom-up sort: it goes wrong exactly on the empty array, where `size - 1` wraps around and the first merge
  reads outside the array (`BottomUpSort`). So the reference program crashes exactly when a name of its pool
  has no file or an empty one, and otherwise sorts every file (`ReferenceSorting.EveryFileSorted`).
- K-way merge: it goes wrong exactly when some value is `INT_MAX` (`MergeAll`).
- Reference scheduler: it starts again from the front of the list after each end, and new coroutines go to
  the front. A coroutine is kept waiting through a wait exactly if one before it in the list ends without
  another yield (`KeptWaiting`), and that through any number of waits (`OthersStarve`) when coroutines create
  others; when none does, the one behind `i` others is served within `i + 1` waits (`ServedWithin`).
- Tokenizer: a quote directly behind a double-quoted piece is taken literally
  (`QuoteAfterDoubleQuoted`), an empty word passes NULL to `strdup`, and an open quote or comment at the end
  of the input is never left (`TokenizeOpenQuote`, `TokenizeComment`).
- Tokenizer: a tab or carriage return where a word could begin is fatal (`TokenizeTab`); a byte 0xFF there ends
  the line, and directly behind a word it is lost (`TokenizeEnd`); a backslash at the end of the input adds such
  a byte to the word (`BackslashAtEnd`).
- Evaluator: it reads outside the token list exactly when the line begins with `&&`, `||`, `>` or `>>`, is a
  lone `&`, begins with `|` and has no redirection before its last token, or ends with a redirection that is
  the first of its program, as `a >` does (`SliceFaultsExactly`, `LinesThatFault`). What stands in a program
  behind the file name of its first redirection is dropped, and so is a last pipe (`SliceSplits`).

## Assumptions

Allocation succeeds. Threads are sequentially consistent, and the client of the thread pool keeps the rules
of `ThreadPool.Allowed`: it names only tasks it has not detached or deleted, and pushes a task only outside
the pool. A task may be deleted at any time; that no freed memory is touched is claimed of clients that do so
only outside the pool or when a worker is through with it (`ThreadPool.Orderly`). A joiner may wake up by
itself once its task has finished. A caller of UserFS
does not name the slot right behind the descriptor table, which the range check of the code lets through
(`3/userfs.c:86`). The number of tokens and array sizes stay below the range of `size_t`. What pipelines do is
a function of everything run before; clocks are arbitrary streams of booleans. The files to be sorted hold
integers.

## Model

| member | source | states |
|---|---|---|
| `UfsFlat.WriteRefines` | 3/userfs.c:274-322 | a write at position p of a flat file replaces the bytes from p on, returns the length and moves to its end; out of room it stores the prefix that fits, returns -1 with NO_MEM; other files and descriptors stay |
| `UfsFlat.ReadRefines` | 3/userfs.c:324-361 | a read returns content[p..min(p+n, size)] and changes no file; the new position is p plus the count if and only if it does not run past a full last block, else the next call starts at 0 |
| `UfsFlat.ReadBack` | 3/userfs.c:274-361 | what one descriptor wrote, another one at the same position reads |
| `UfsFlat.PackedResize` | 3/userfs.c:426-496 | a resize leaves full blocks, one partial and empty ones if and only if the blocks before the new last one were full |
| `UfsFlat.ResizeContent` | 3/userfs.c:435-470 | content after a resize, with block count max(1, ceil): cut to the size when the block count falls, unchanged otherwise; the cut happens exactly then |
| `UfsFlat.ResizePosition` | 3/userfs.c:472-490 | any descriptor before the new end, with the index of its block or not: it keeps its position if and only if its index lies before the new last block, or its block is that one, or its index is that block's and it has no block or an offset within the new count, or it has no block and one is left |
| `UfsFlat.ResizePositionBehind` | 3/userfs.c:472-490 | any descriptor at or behind the new end lands at or before it: at it if and only if its index is that of a block that is left or its old offset reaches the last count |
| `UfsFlat.ResizeRefines` | 3/userfs.c:426-496 | a whole resize: flatness if and only if the shrink is packed, other files and their descriptors untouched, every descriptor of the file on a block that is left and at or before the new end |
| `UfsFlat.StepInv` | 3/userfs.c:129-496 | every operation keeps block structure, reference counts, unique names, freed-exactly-when-unused, and each descriptor on an existing block, at or before its index, within its occupied bytes |
| `UfsFlat.Run` | 3/userfs.c:129-496 | the invariant holds after any run of operations |
| `UfsFlat.RunsStayFlat` | 3/userfs.c:129-496 | from the empty file system, runs whose shrinks are packed stay flat: every descriptor at or before the end of its file |
| `UfsFlat.GhostStep` | 3/userfs.c:363-407 | an unlisted file gains no descriptor, is never listed again and keeps its bytes unless its own descriptors change them |
| `UfsFlat.GhostRun` | 3/userfs.c:244-407 | the same over any run, whatever is created under its name, and it is freed exactly when its last descriptor closes |
| `UfsIndex.StepStraight` | 3/userfs.c:163-171 | every operation but a read or write with a descriptor that has walked off keeps each descriptor on the block at its index, or on none |
| `UfsIndex.IndexIsBlock` | 3/userfs.c:274-361 | in every run without such a reuse a started descriptor's block is the one at its index, its offset is within it, and no shrink moves it that leaves its position in the file |
| `UfsIndex.ReusedMoves` | 3/userfs.c:480-490 | a flat run with a reuse, after which a shrink moves a descriptor from byte 1 to byte 513 |
| `UfsIndex.BehindTheEndFails` | 3/userfs.c:480-490 | a flat run of two calls after which a shrink to 600 bytes puts a descriptor from byte 1537 to byte 513 |
| `UfsNames.OpenGives` | 3/userfs.c:244-272 | opening an existing name adds a descriptor in the first free slot, at the start of that file, with UFS_CREATE a new name gets an empty file; otherwise NO_FILE; nothing else changes |
| `UfsNames.DeleteGives` | 3/userfs.c:380-407 | deleting succeeds if and only if the name exists, which it does not afterwards, and fails with NO_FILE; other names, all descriptors and the bytes of open files stay |
| `UfsNames.CloseGives` | 3/userfs.c:363-378 | closing empties one slot; the file is freed if and only if it is unlisted and this was its last descriptor |
| `UfsNames.Recreate` | 3/userfs.c:211-407 | a name created again after deletion is a new empty file, and descriptors on the old one keep position and bytes |
| `UfsErrors.WriteAnswers` | 3/userfs.c:274-322 | ufs_write refuses a number that is no open descriptor with NO_FILE and one without bit 8 or 4 with NO_PERMISSION, and then changes no file and no other descriptor; out of room it fails with NO_MEM; otherwise it returns the length |
| `UfsErrors.ReadAnswers` | 3/userfs.c:324-361 | ufs_read likewise, by bits 8 and 2 |
| `UfsErrors.ResizeAnswers` | 3/userfs.c:426-431 | ufs_resize refuses what is no open descriptor, and any size above 100 MB, and nothing else |
| `UfsErrors.CloseAnswers` | 3/userfs.c:363-378 | ufs_close refuses exactly what is no open descriptor |
| `UfsErrors.ModeDecides` | 3/userfs.c:263-281 | through any run that does not close it, a descriptor may write and read exactly what the flags of its ufs_open say: write with no mode, bit 8 or bit 4, read with no mode, bit 8 or bit 2 |
| `UfsErrors.ReadOnlyChanges` | 3/userfs.c:425-431 | a call naming a descriptor that may not write changes its file if and only if it is a ufs_resize that changes the block count, or empties the only block |
| `UfsInvariant.WriteInv` | 3/userfs.c:274-322 | ufs_write keeps the invariant |
| `UfsInvariant.ReadInv` | 3/userfs.c:324-361 | ufs_read keeps the invariant |
| `UfsInvariant.ResizeInv` | 3/userfs.c:426-496 | ufs_resize keeps the invariant: no descriptor on a freed block, offsets within the occupied counts |
| `UfsInvariant.OpenInv` | 3/userfs.c:244-272 | ufs_open keeps it: the count of references goes with the slots |
| `UfsInvariant.CloseInv` | 3/userfs.c:363-378 | ufs_close keeps it: a removed file goes with its last descriptor |
| `UfsInvariant.DeleteInv` | 3/userfs.c:380-407 | ufs_delete keeps it: the file is freed or lives on unlisted |
| `UfsInvariant.OpenFileIsAlive` | 3/userfs.c:363-407 | a file with an open descriptor has not been freed |
| `UfsModel.FreeSlotExists` | 3/userfs.c:129-161 | the search for a free descriptor slot stops at one, within the table |
| `UfsBlocks.AddBlock` | 3/userfs.c:173-190 | appends one empty block to the linked list and nothing else |
| `UfsBlocks.WriteBlocks` | 3/userfs.c:288-321 | the loop of ufs_write over linked blocks stores and moves as the transition says, and ends: a hop writes nothing but uses up a block |
| `UfsBlocks.ReadBlocks` | 3/userfs.c:333-360 | the loop of ufs_read returns the bytes up to the first block that is not full |
| `UfsBlocks.FreeBlock` | 3/userfs.c:195-209 | frees a block and unlinks it from the neighbour it returns |
| `UfsBlocks.ShrinkBlocks` | 3/userfs.c:453-470 | drops blocks from the end, keeps at least one and sets its count |
| `UfsBlocks.GrowBlocks` | 3/userfs.c:444-451 | appends empty blocks up to the new count |
| `UfsBlocks.FreeFileBlocks` | 3/userfs.c:230-236 | frees every block of a file once |
| `UfsBlocks.WriteAppend` | 3/userfs.c:288-321 | storing one chunk behind another is storing both at once |
| `UserFs.RepairDescriptors` | 3/userfs.c:472-490 | the walk over the table moves exactly the descriptors of the cut file |
| `UserFs.LinkFile` | 3/userfs.c:211-228 | the new file becomes the last of the linked list |
| `UserFs.FirstFreeSlot` | 3/userfs.c:139-142 | finds the first free slot |
| `UserFs.Ufs.InitCurrentBlock` | 3/userfs.c:163-171 | a descriptor without a block goes to the head of a file that has one, and its index goes up by one |
| `UserFs.Ufs.CreateFiledesc` | 3/userfs.c:129-161 | takes the first free slot, growing the table when it is full |
| `UserFs.Ufs.AddFile` | 3/userfs.c:211-228 | adds an empty file to the list |
| `UserFs.Ufs.FindFile` | 3/userfs.c:250-252 | finds the listed file of a name, or none |
| `UserFs.Ufs.Open` | 3/userfs.c:244-272 | over the heap, makes the transition of the model |
| `UserFs.Ufs.Write` | 3/userfs.c:274-322 | over the heap, makes the transition of the model and keeps all links |
| `UserFs.Ufs.Read` | 3/userfs.c:324-361 | over the heap, makes the transition of the model and changes no block |
| `UserFs.Ufs.Close` | 3/userfs.c:363-378 | over the heap, makes the transition of the model |
| `UserFs.Ufs.Delete` | 3/userfs.c:380-407 | over the heap, makes the transition of the model |
| `UserFs.Ufs.Resize` | 3/userfs.c:426-496 | over the heap, makes the transition of the model; no descriptor is left on a freed block |
| `UserFsRuns.Execute` | 3/userfs.c:129-496 | a run of calls on the heap ends in the state the run of the model ends in |
| `ThreadPoolInvariant.StepInv` | 4/thread_pool.c:79-158 | every step of every worker and of the client, but the destruction of a held mutex, keeps the invariant: no access to freed memory, the linked queue is a sequence, locks, counters and statuses agree |
| `ThreadPoolInvariant.PopFrontInv` | 4/thread_pool.c:97-113 | taking the head of the queue keeps it, whatever the last `next` field holds |
| `ThreadPoolInvariant.PushBackInv` | 4/thread_pool.c:79-95 | appending to the queue keeps it |
| `ThreadPoolSafety.OrderlyNeverFaults` | 4/thread_pool.c:281-293 | with a client that deletes tasks only outside the pool or done, no interleaving touches freed memory or destroys a held mutex |
| `ThreadPoolSafety.EveryPushRunsAtMostOnce` | 4/thread_pool.c:79-158 | in every reachable state each push has led to one execution or to none yet, and then the task is queued once or with one worker; queue, counters and bounds are as promised |
| `ThreadPoolSafety.PushIsLastIn` | 4/thread_pool.c:79-95 | a push puts its task behind all others and wakes every sleeping worker |
| `ThreadPoolSafety.PopIsFirstOut` | 4/thread_pool.c:97-113 | a worker gets the task that has been queued longest, or goes idle if there is none |
| `ThreadPoolSafety.WorkersKeepOff` | 4/thread_pool.c:115-158 | no worker step touches a task outside the pool, done or freed |
| `ThreadPoolSafety.JoinReturnsResult` | 4/thread_pool.c:263-279 | join returns what the execution for the last push returned, and the task is the client's again |
| `ThreadPoolSafety.NoLostJoin` | 4/thread_pool.c:138-154 | a joiner waiting on a finished task has its broadcast still coming |
| `ThreadPoolSafety.GivenAway` | 4/thread_pool.c:330-350 | a detached task is freed or on its way to be freed by the one worker that gets it |
| `ThreadPoolSafety.WorkerLetsGo` | 4/thread_pool.c:138-154 | when a worker is through with a task, a detached one is freed and any other waits for its join |
| `ThreadPoolSafety.FreedOnce` | 4/thread_pool.c:281-293 | no later step of any run touches a freed task |
| `ThreadPoolSafety.DeletedPoolHasRunEverything` | 4/thread_pool.c:200-217 | when the pool is deleted every worker has ended, the queue is empty and every push has been executed |
| `ThreadPoolProgress.StaysAwake` | 4/thread_pool.c:120-136 | while the queue is not empty a worker that has not found it empty is there after every step |
| `ThreadPoolProgress.NothingTaken` | 4/thread_pool.c:122-134 | when every worker has found the queue empty, no run without another push and without a wake-up out of the blue takes anything |
| `ThreadPoolProgress.LeftAlone` | 4/thread_pool.c:115-158 | workers left to themselves take a bounded number of steps; then the queue is empty if one was awake, and untouched if none |
| `ThreadPoolProgress.MissedExactly` | 4/thread_pool.c:122-134 | once a push has returned its task is never taken in such runs if and only if every worker is on its way to sleep |
| `ThreadPoolProgress.AwakeAfterBroadcast` | 4/thread_pool.c:82-83 | after the broadcast of a push some worker is awake if and only if not all stand between their look at the queue and their wait |
| `ThreadPoolProgress.SpawnedIsAwake` | 4/thread_pool.c:228-230 | when a push returns some worker is awake if and only if one was or there was more queued than threads and room for a thread |
| `ThreadPoolProgress.DeleteReturns` | 4/thread_pool.c:206-216 | without a worker caught between look and wait the deletion takes a bounded number of steps and has returned when nobody can go on |
| `ThreadPoolProgress.DeleteHangsExactly` | 4/thread_pool.c:206-210 | thread_pool_delete waits for ever, in every run without a wake-up out of the blue, if and only if at its broadcast some worker is about to wait |
| `ThreadPoolRules.DeleteSafeExactly` | 4/thread_pool.c:281-293 | no interleaving of thread_task_delete destroys a held mutex if and only if the task is outside the pool or done when the call starts |
| `ThreadPoolRules.DeleteRefuses` | 4/thread_pool.c:281-286 | a task that has not finished is refused with TPOOL_ERR_TASK_IN_POOL and nothing changes |
| `ThreadPoolRules.ReturnsEarly` | 4/thread_pool.c:271-278 | what a joiner returns that wakes by itself before the task has finished: the stored result, with the task marked finished in the queue or a worker's hands |
| `ThreadPoolRules.EarlyExactly` | 4/thread_pool.c:271-278 | such a joiner can return before the execution it waits for if and only if that has not happened when it wakes |
| `ThreadPoolTimeouts.TimeoutChangesNothing` | 4/thread_pool.c:297-324 | when a timed join returns Timeout, the same steps of the workers without the call lead to the same state, and the task can be joined again |
| `ThreadPoolAnswers.NewAnswers` | 4/thread_pool.c:176-191 | a pool is made for 1 to 20 threads and for no other number |
| `ThreadPoolAnswers.PushAnswers` | 4/thread_pool.c:219-233 | in every interleaving thread_pool_push_task answers TOO_MANY_TASKS if and only if it finds 100000 in the queue, and has then done nothing; otherwise it succeeds and the task has been pushed once more |
| `ThreadPoolAnswers.JoinAnswers` | 4/thread_pool.c:263-324 | both joins answer TASK_NOT_PUSHED if and only if the task never was, and have then done nothing; otherwise a timeout if and only if the time ran out while waiting, else the result |
| `ThreadPoolAnswers.DetachAnswers` | 4/thread_pool.c:330-350 | thread_task_detach refuses if and only if the task was never pushed, and has then done nothing; otherwise the task is given away |
| `ThreadPoolAnswers.DeleteUnpushed` | 4/thread_pool.c:281-293 | thread_task_delete frees a task that was never pushed |
| `ThreadPoolAnswers.DeletePushed` | 4/thread_pool.c:281-293 | one that was pushed it frees if and only if it finds it finished at its second look; otherwise it refuses and has done nothing |
| `ThreadPoolAnswers.DeletePoolQueued` | 4/thread_pool.c:200-204 | thread_pool_delete refuses with HAS_TASKS when it finds a task in the queue, and has then done nothing |
| `ThreadPoolAnswers.DeletePoolRunning` | 4/thread_pool.c:200-204 | when it finds none there, it refuses if and only if it then finds a worker running one, and has then done nothing |
| `ThreadPoolLimits.PushCanBeMissed` | 4/thread_pool.c:122-134 | the input: a reachable state where a task stays queued while every worker sleeps |
| `ThreadPoolLimits.PoolDeleteCanHang` | 4/thread_pool.c:206-212 | the input: a reachable state where thread_pool_delete waits for a worker that nothing wakes |
| `ThreadPoolLimits.JoinNeedsNoSpuriousWake` | 4/thread_pool.c:271-272 | the input: with one wake-up that no broadcast caused, join returns before the task has run |
| `ThreadPoolLimits.DeleteNeedsJoin` | 4/thread_pool.c:281-293 | the input: deleting a task whose worker is about to announce it destroys a locked mutex |
| `Sorting.SortedIsSort` | 1/reference/main.c:223-249 | the reference result: the only sorted permutation |
| `Sorting.MergeSorts` | 1/reference/main.c:207-221 | merging two sorted runs gives the sorted permutation of both |
| `Sorting.MergeRuns` | 1/reference/main.c:207-221 | merge in place through tmp, which equals the array before and after, so that leftovers of the right run need no copying |
| `Sorting.PassRuns` | 1/reference/main.c:230-231 | a pass over sorted runs of length m leaves sorted runs of length 2m and the same elements |
| `Sorting.MergePass` | 1/reference/main.c:231-247 | the inner loop makes one pass |
| `Sorting.BottomUpSort` | 1/reference/main.c:223-249 | it succeeds if and only if the array is not empty; then the array becomes its sorted permutation, by the merges of `SortPlan` in that order |
| `Sorting.SortPlanSorts` | 1/reference/main.c:230-231 | those merges, applied in order, sort any values |
| `TopDownSort.PlanSorts` | 1/mine/main.c:84-107 | the merges of the recursion, applied in order, sort their part and leave the rest alone |
| `TopDownSort.MergeSort` | 1/mine/main.c:71-107 | the recursive sort sorts its part, by those merges in that order |
| `TopDownSort.MergeToBuffer` | 1/mine/main.c:88-104 | the loop over the buffer, with what its inner loops copy, merges |
| `TopDownSort.TopDown` | 1/mine/main.c:71-107 | any array becomes its sorted permutation |
| `KWayMerge.FindLeast` | 1/reference/main.c:272-281 | the search yields the first array with the least head, if that is below INT_MAX |
| `KWayMerge.MergeAll` | 1/reference/main.c:264-285 | the merge succeeds if and only if no value is INT_MAX; then it yields every value as often as the inputs, and the sorted permutation of their union if they are sorted |
| `FilePool.Pool.Append` | 1/reference/main.c:136-145 | adds a name |
| `FilePool.Pool.PollNext` | 1/reference/main.c:147-161 | takes the name appended last, or NULL |
| `FilePool.Pool.List` | 1/reference/main.c:252-262 | the walk of merge_all_files sees every name once, the last appended first |
| `FilePool.PollAll` | 1/reference/main.c:147-161 | polls of any coroutines on the linked pool hand out what `Deal` says |
| `FilePool.EachFileDealtOnce` | 1/reference/main.c:313 | whoever polls in whatever order, each entry goes to one coroutine or is still there |
| `CoroRing.YieldRotates` | 1/mine/libcoro.c:65-74 | a yield rotates the ready queue |
| `CoroRing.RetireDropsHead` | 1/mine/libcoro.c:53-60 | a return removes exactly the coroutine that ran, and the next one runs |
| `CoroRing.CreateInserts` | 1/mine/libcoro.c:30-46 | a new coroutine comes into the queue where the list ends |
| `CoroRing.OneSliceEach` | 1/mine/libcoro.c:48-74 | between two consecutive slices of a coroutine every other one that lives throughout gets exactly one slice, whoever returns or is created meanwhile |
| `CoroRing.AllReturnOnce` | 1/mine/libcoro.c:48-63 | with finite scripts loop_start ends and each coroutine ever created has returned exactly once |
| `Libcoro.EventLoop.CoroCreate` | 1/mine/libcoro.c:30-46 | links the node before the sentinel |
| `Libcoro.EventLoop.CoroYield` | 1/mine/libcoro.c:65-74 | the current node becomes the next one but the sentinel; one node alone goes on |
| `Libcoro.EventLoop.Retire` | 1/mine/libcoro.c:53-60 | unlinks the node that ran; the current node stays a live one |
| `Libcoro.EventLoop.LoopStart` | 1/mine/libcoro.c:48-63 | over the linked nodes, runs as the value model does, to an empty ring |
| `Claiming.StepInv` | 1/mine/main.c:109-141 | every step of every coroutine keeps: each claimed file has one taker, and what is left of its merges will sort it |
| `ClaimingRuns.ActNearsEnd` | 1/mine/main.c:109-141 | every step claims a file, or does a piece of the work on one, or ends a coroutine |
| `ClaimingRuns.EveryFileSorted` | 1/mine/main.c:109-176 | for any files, coroutines from one on and any clock, the loop ends, each file was claimed by exactly one coroutine and its array is the sorted permutation of its input |
| `ClaimingTurns.TurnLaw` | 1/mine/main.c:41-50 | after a step the second coroutine of the ready queue runs if and only if the first has claimed, read or merged more than two values and its quantum has run out; otherwise the first runs on, unless it has ended |
| `ClaimingTurns.LateTakesTurns` | 1/mine/main.c:109-141 | while every quantum has run out, coroutine i claims file i, for as many as there are of both |
| `ClaimingTurns.FirstTakesAll` | 1/mine/main.c:109-141 | when no quantum runs out, the first coroutine claims every file |
| `ClaimingLoop.Execute` | 1/mine/main.c:155-176 | the program on the linked event loop ends with the files of that run, each array sorted, claimed in turn under a clock that is always late and all by the first coroutine under one that never is |
| `ClaimingRuns.SortedFilesMerge` | 1/mine/main.c:178-201 | merging those arrays gives the sorted permutation of all files together |
| `ReferenceSorting.StepInv` | 1/reference/main.c:305-326 | every step of every coroutine and of the scheduler keeps: each name is in the pool or was taken once, what is left of its merges will sort it, a coroutine that has ended found the pool empty; a crash has a name to blame |
| `ReferenceSorting.ScheduleIsWait` | 1/reference/libcoro.c:117-130 | the rounds of the scheduler in these runs are those of coro_sched_wait |
| `ReferenceSorting.EveryFileSorted` | 1/reference/main.c:305-368 | for any names, files, clock and coroutines from one on: the program crashes if and only if a name has no file or an empty one; otherwise, when coro_sched_wait returns NULL, each coroutine was handed out once, each name was taken by one of them, each file holds its sorted permutation, all other files are as they were |
| `ReferenceSorting.AllFilesMerged` | 1/reference/main.c:251-285 | the files merge_all_files reads then are sorted, and merging them gives the sorted permutation of all files as they were |
| `ReferenceTurns.TurnLaw` | 1/reference/main.c:81-92 | a coroutine gives way, and makes a switch, if and only if it has chosen a file or has merged late; it gives control to the scheduler when it ends and otherwise runs on |
| `ReferenceTurns.FirstRound` | 1/reference/main.c:305-326 | whatever the clock says, the first files are taken in turn, the last one by the coroutine created last |
| `SchedulerModel.StepRunning` | 1/reference/libcoro.c:94-110 | while a coroutine runs the scheduler waits and no coroutine in the list is finished; "no place to return" is never reached |
| `SchedulerModel.WaitReturns` | 1/reference/libcoro.c:117-130 | coro_sched_wait hands out a coroutine that has ended, with its result and switch count, and NULL if and only if all were handed out |
| `SchedulerModel.RoundSlices` | 1/reference/libcoro.c:94-126 | a round of the scheduler gives each coroutine of the list exactly one slice up to the first without a yield left to make, which ends, and none to those behind it or created meanwhile |
| `SchedulerModel.SliceExactly` | 1/reference/libcoro.c:94-126 | a coroutine gets a slice in the round if and only if each one before it has a yield left to make |
| `SchedulerModel.KeptWaiting` | 1/reference/libcoro.c:117-130 | a coroutine is kept waiting through a call of coro_sched_wait if and only if one before it in the list ends without another yield |
| `SchedulerModel.RunCalls` | 1/reference/libcoro.c:112-236 | any sequence of creations and waits of the main program keeps that invariant |
| `SchedulerModel.DrainReturnsAll` | 1/reference/main.c:358-368 | the main loop ends with every coroutine, those created meanwhile too, handed out exactly once |
| `SchedulerModel.OthersStarve` | 1/reference/libcoro.c:57-64 | coroutines that create coroutines keep all others from running through any number of waits |
| `SchedulerModel.ServedWithin` | 1/reference/libcoro.c:117-130 | when no coroutine of the list creates others, the one behind i others has ended or made a switch after i + 1 waits |
| `ReferenceLibcoro.Library.ListAdd` | 1/reference/libcoro.c:57-64 | links at the front |
| `ReferenceLibcoro.Library.ListDelete` | 1/reference/libcoro.c:66-75 | takes exactly one node out of the list |
| `ReferenceLibcoro.Library.CoroYield` | 1/reference/libcoro.c:94-110 | control goes to the next in the list or to the scheduler, and the switch is counted |
| `ReferenceLibcoro.Library.CoroEnd` | 1/reference/libcoro.c:156-165 | stores the result and gives control back, or finds no place to return |
| `ReferenceLibcoro.Library.SchedWait` | 1/reference/libcoro.c:117-130 | over the linked list, does what the value model does |
| `ShellLexer.Stdin.Word` | 2/parser.c:117-171 | the loop over a word reads what `ReadWord` says, and reports an open quote |
| `ShellLexer.Stdin.TokenizeCommand` | 2/parser.c:35-185 | the character loops read the line `Tokenize` says and leave the rest of the input |
| `ShellQuoting.ReadPieces` | 2/parser.c:117-171 | a word of plain characters, escapes, continued lines and quoted pieces is read as the concatenation of their values, up to the character it ends at |
| `ShellQuoting.TokenizePieces` | 2/parser.c:111-176 | such a word becomes one token, cut at its first NUL, whatever word end follows, and is fatal if it has no characters |
| `ShellQuoting.DoubleBody` | 2/parser.c:127-147 | between double quotes a backslash drops out in front of a double quote or backslash and with the end of a line, and stands for itself in front of anything else |
| `ShellQuoting.TokenizeOperator` | 2/parser.c:53-106 | an operator is read as itself whatever else follows directly, and & ends the line |
| `ShellQuoting.TokenizeTab` | 2/parser.c:47-176 | a tab or carriage return where a word could begin makes an empty word |
| `ShellQuoting.TokenizeEnd` | 2/parser.c:20-50 | a byte 0xFF ends a line as the end of the input does, and directly behind a word it is lost |
| `ShellQuoting.BackslashAtEnd` | 2/parser.c:157-167 | a backslash at the end of the input adds the byte 0xFF to the word |
| `ShellQuoting.TokenizeItems` | 2/parser.c:35-185 | operators and words in any order, with spaces or without where they meet, are read as their tokens, one after the other, and what follows them goes on being read |
| `ShellQuoting.QuoteAfterDoubleQuoted` | 2/parser.c:127-170 | a quote directly behind a double-quoted piece is a character like others |
| `ShellQuoting.SingleOpen` | 2/parser.c:119-125 | a single quote is left open if and only if no other follows |
| `ShellQuoting.DoubleOpen` | 2/parser.c:127-147 | a double quote is left open if and only if no other follows but behind a backslash |
| `ShellQuoting.TokenizeOpenQuote` | 2/parser.c:117-147 | with an open quote, behind whatever operators, words and pieces of a word, the program does not end |
| `ShellQuoting.TokenizeComment` | 2/parser.c:107-110 | a comment ends its line; without a newline behind it the program does not end |
| `ShellEvaluator.InitArgv` | 2/evaluator.c:5-18 | copies the values of an index range, or reads outside the list |
| `ShellEvaluator.InitProgram` | 2/evaluator.c:20-45 | slices one program at its first redirection |
| `ShellEvaluator.InitPipeList` | 2/evaluator.c:47-66 | slices a pipeline at its pipes |
| `ShellEvaluator.InitCommandEntry` | 2/evaluator.c:68-89 | slices an entry and its operator |
| `ShellEvaluator.BuildCommand` | 2/evaluator.c:101-126 | slices a line into entries and sees a final & |
| `ShellEvaluator.SliceTokens` | 2/evaluator.c:5-124 | slicing the tokens of a well-formed command gives the command back, with every index in range |
| `ShellFaults.SliceFaultsExactly` | 2/evaluator.c:5-118 | the slicing reads outside the token list if and only if the list begins with a logical operator or a redirection, is a single &, begins with a pipe and has no redirection before its last token, or ends with a redirection that is the first of its program |
| `ShellFaults.LinesThatFault` | 2/evaluator.c:20-45 | the inputs: the lines `a >` and `&`, from their characters to the fault |
| `ShellSplits.SliceSplits` | 2/evaluator.c:5-124 | every other list is sliced into entries between logical operators, programs between pipes, and of a program the words before its first redirection and the token behind that; in front of a pipe that begins the line a program reaches over all of it |
| `ShellCommand.CommandExec` | 2/command.c:10-62 | the four-mode machine runs what the left-associative AND-OR list says (section 2.9.3 of the Shell Command Language, POSIX.1-2017), in that order and with that status, and stops where a pipeline ends the shell |
| `ShellCommand.EvalFollows` | 2/command.c:18-56 | in an AND-OR list the first pipeline runs, and behind each that ran the next one whose operator asks for it by the status, unless the shell has ended; the status is that of the last one run |
| `ShellCommand.TerminatedEval` | 2/command.c:28-29 | nothing behind a terminating entry runs |
| `ShellRoundTrip.ReadPrinted` | 2/parser.c:35-185 | what is read back of any printed command, and what is left of the input |
| `ShellRoundTrip.RoundTrip` | 2/parser.c:35-185 | a printed command is read back and sliced as itself if and only if no word is empty or holds a NUL |
| `ShellRoundTrip.CutAtNul` | 2/utils.c:72-76 | of a word that holds a NUL only what is in front of the first is left |
| `ShellRoundTrip.Evaluate` | 2/evaluator.c:91-144 | slices and runs a line: one of no tokens runs nothing, has no status and does not end the shell, nor does one in the background; any other has the status of the last pipeline it ran |
| `ShellRoundTrip.TextMeansCommand` | 2/evaluator.c:91-144 | from the text of a command to its effects: it runs as the standard's AND-OR list |
| `ShellSession.Shell` | 2/solution.c:5-26 | the loop of the shell makes of its input what `Live` says |
| `ShellSession.EmptyLines` | 2/solution.c:11-21 | empty lines, spaces and comments change nothing: the shell goes on as without them |
| `ShellSession.ScriptRuns` | 2/solution.c:5-26 | the text of a script runs as its AND-OR lists, in order; the exit code is that of the last one in the foreground that has one, and only `exit` in the foreground ends it |

## Left out

- ThreadPool.Step: modelled on values as a transition system, because Dafny has no threads; sequential consistency and no allocation failure; that a worker that can take a step does is not claimed, only what is left when none can.
- ThreadPool.Enabled: a timeout is an arbitrary expiry; its arithmetic (`init_timespec`) and the early return for a negative one are left out.
- UserFs.Ufs.Write: buffers are sequences, not memory shared with the caller, and a call that names fd == capacity is excluded because the code reads behind its table.
- UserFs.Ufs.Resize: for a shrink that is not packed (`ShrinkIsPacked`) only the invariant and exact new counts are claimed, not flat content.
- UfsModel.Write: overflow of the counters of descriptors and references is not modelled.
- CoroRing.AllReturnOnce: only for coroutines that end; stacks and signal handling of context switching are not modelled.
- Claiming.Step: reading a file is one step that yields its values; running times and switch counters are left out.
- SchedulerModel.SchedWait: called from the main program only, as the program does; a call from within a coroutine is not modelled.
- ShellSession.Shell: the round that the program makes at the end of the input, on no tokens, is left out.
- ShellLexer.Tokenize: endless loops are reported instead of run; characters are single bytes.
- ReferenceSorting.Step: choosing, reading, each merge and writing are single steps over a map of files; reading and writing one do not interleave in the program either.
- `ufs_destroy`: frees everything at once; would only add an easy member.
- `2/pipe_list.c`: fork, pipe, dup2 and execvp; a pipeline's outcome is a parameter.
- `2/utils.c`: growable lists and strings are sequences.
- File input and output, printing and timers of both `1/*/main.c`; `1/mine/main_aio.c`, whose sort and merge repeat `1/mine/main.c`.
- All of `5/` (stubs around sockets) and `utils/heap_help/` (interposition and reporting).
