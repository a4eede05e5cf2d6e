# DOoOM: an out-of-order RISC-V core, its memory system and its kernel allocators

This project models the parts of the DOoOM repository whose correctness rests on invariants over whole
runs, and proves each of them against a simpler specification:

- **The core** (`Core*.dfy`): rename, reorder buffer, issue, load/store unit and commit as one state machine with a
  step per rule, proved by forward simulation to be a machine that executes one instruction at a time (`Isa.dfy`), but for the
  runs of the section on findings. The register-level classes of the same units, `LoadQueue.dfy`, `StoreQueue.dfy` (store queue and
  store buffer), `Rob.dfy`, `IssueQueue.dfy` and `RenamingTable.dfy`, over the ring arithmetic of `Ring.dfy`, are proved against the
  specification functions the core model uses (`RenamingSpec.dfy`, `LsuSpec.dfy`, `Words.dfy`, `Bits.dfy`). `CoreUnits.dfy` proves
  that an operation of a unit does to its registers what the rule that uses it does to the state of the core, and
  `CoreRegisters.dfy` that the registers of all units move together with the core through every run. `CoreMemory.dfy` puts
  the core on its data cache and main memory, and `CoreSystem.dfy` has unit registers, cache registers and main memory in one run.
- **The write-back cache** (`BCache.dfy`), with its burst engines and the memory behind it: a flat memory, for every
  interleaving of the beats.
- **The kernel heap** (`Holes.dfy`, `HoleList.dfy`, `Heap.dfy`): the free list threaded through word memory is the
  canonical list of free runs left by the live blocks.
- **Page tables over a page allocator** (`Palloc.dfy`, `PageTables.dfy`, `Vm.dfy`, `VmRuns.dfy`): a tree of distinct frames
  whose walk is a map from virtual pages to frames and permissions, from the empty allocator on through every sequence of calls.
- **The SDRAM controller** (`Sdram.dfy`, `SdramProofs.dfy`, `SdramDelays.dfy`): commands legal for the chip, a data bus
  without collisions, and a flat memory for the user.
- **Smaller pieces**: the read crossbars (`XBar.dfy`), the miss registers (`Mshr.dfy`), multiplier and divider (`MulDiv.dfy`),
  the SD card CRC (`Crc16.dfy`) and the TMDS encoder (`Tmds.dfy`).

## How to read it

A rule or an action method of the Bluespec code is one atomic guarded step; within a cycle an Ehr port number only says
which method comes first. `hide` statements in proofs name definitions that the proof does not need.

An instruction of the core model is numbered by its position in `log`; the hardware's 4-bit index, 8-bit age and 8-bit epoch
are these numbers truncated, and `IndicesAreUnique` and `AgesAndEpochsCompare` prove that the truncation loses nothing.
What an arithmetic, control or system instruction computes, what a trap and a retirement do to the CSRs, and the program memory
are parameters of the sequential machine; the core must use them as that machine does. The predicted pc is arbitrary at every fetch.

Assumptions of the core model:

- The commit of a memory instruction is one step. `killed` is a register whose reads see the value from the start of
  the cycle, so `commit_instruction` tests the bit that `commit_dmem` clears in the same cycle (src/CoreOOO.bsv:80, 393-417).
- The instruction word that comes with a decode or fetch exception is undefined (src/FetchDecode.bsv:55-75). The model gives it
  no destination; what `execDirect` would compute for it is a parameter like that of any system instruction.
- Results wait for write-back in no particular order, and as many as the reorder buffer has instructions: every order the
  functional units and their FIFOs allow is one of the model's.
- `execute_direct` writes an arbitrary result for an instruction of an old epoch (src/CoreOOO.bsv:450-453 leave it undefined).
- Any ready instruction may issue, any known store may be reported, and any unblocked load may issue in the core model; that the
  units choose one of these, and the oldest where the source does, is proved in `CoreUnits.dfy` and used in `CoreRegisters.dfy`.

Where code and documentation differ, the model follows the code:

- REM and REMU by zero return 0 (src/MulDiv.bsv:249), where section 7.2 of the RISC-V Unprivileged ISA 20191213 says the dividend.
- An invalidation of a dirty line is acknowledged when it is matched, before the write-back ends (src/cache/BCache.bsv:261-266);
  `ReleaseBlockAckInv` is where memory has the line.
- `walk` takes any valid entry above the last level for a pointer (rust/src/vm.rs:144-160), where the hardware would stop at a
  leaf; on the tables that `map` builds the two agree (`HardwareAgrees`).
- `PageAlloc::alloc` counts failed requests too (rust/src/palloc.rs:32).

The heap keeps the word size `w` a parameter: a power of two from 2 to 128, with hole headers of two words. `check_merge_top` and
`check_merge_bottom` are modelled as written; `Insert` proves that they change nothing. In the SDRAM model a cycle is what happens between two
`Tick`s; the two rules that nothing can hold back, `read1` and `write1`, fire in the first cycle in which their bank's delay is over, and
at most one rule sends a command in a cycle. Commands and data leave the controller one register later, which shifts all
times alike.

## Findings

| where | what the code does | shown by |
|---|---|---|
| src/CoreOOO.bsv:440-456, with 166 and 217-218 | `execute_direct` tests the DIRECT tag, a missing result and a queue that is not empty. An instruction with a fetch or decode exception has that tag and no entry in the queue, so until its exception is written back the rule can fire for it and take the operands of a system instruction behind it, which later executes with those of the next one. Rules one at a time allow this; whether a given compiled schedule ever lets `execute_direct` overtake `write_back` so is not part of the model. | `CoreWitness.WrongOperands` (a run of nineteen rules from reset that commits a wrong register), `CoreTheorems.StepSimulates` and `CoreTheorems.RunRelatedExactly` (the relation to the sequential machine is kept if and only if the rule never fires for such an instruction). Whether anyone sees it depends on the program: `CoreUnseen.NobodySees` and `CoreUnseen.TakenUnseen` are a machine where it happens and no run ever commits anything else than the sequential machine |
| src/cache/MSHR.bsv:97-124 | `allocEntry` does not look whether the register is busy, and only reports a wrong tag. For an idle register the entry is in no list that `allocMSHR` respects. | `Mshr.Mshr.AllocEntry` (the lists stay as they should if and only if the register is busy, or no entry is free) |
| src/cache/MSHR.bsv:126-158, with 62 and 65 | `firstV` and `lastV` are register files without reset value. For a register that was never allocated since reset, `freeEntry` takes whatever entry `firstV` holds, returns its contents and puts it on the free list once more. | `Mshr.Mshr.FreeEntry` (the lists are broken if and only if the register was never allocated) and `Mshr.Mshr.Drain` (a drain returns the register's requests if and only if it was allocated since reset or `firstV` happens to be invalid) |

## Model

| member | source | states |
|---|---|---|
| `CoreTheorems.RunRefines` | src/CoreOOO.bsv:376-478 | after every rule of every run in which `execute_direct` never fires for an instruction with an exception, whatever the order of issue and write-back and whatever mispredictions, exceptions, kills and interrupts flush the pipeline, the committed registers, memory, CSRs and pc are those of a machine that executed the committed instructions one at a time |
| `CoreTheorems.RunRelatedExactly` | src/CoreOOO.bsv:440-456 | a run stays related to the sequential machine if and only if `execute_direct` never fires for an instruction with an exception |
| `CoreWitness.WrongOperands` | src/CoreOOO.bsv:440-456 | a run from reset in which it does, after which a committed register differs from that of the sequential machine |
| `CoreUnseen.TakenUnseen` | src/CoreOOO.bsv:440-456 | a run in which it does, so that no sequential state is related any more, although every committed state is that of the sequential machine |
| `CoreUnseen.NobodySees` | src/CoreOOO.bsv:440-456 | and on the same machine no run at all ever commits anything else: for what is committed, that rule firing is not enough to make a difference |
| `CoreTheorems.StepSimulates` | src/CoreOOO.bsv:326-478 | each rule keeps the simulation relation, the sequential machine moving by exactly one instruction or one trap at a commit or an interrupt and not otherwise; the one exception is `execute_direct` on an instruction with an exception, after which no sequential state is related |
| `CoreMemory.SystemRefines` | src/lsu/LSU.bsv:60-225 | in every run of core, data cache and main memory together, whatever the interleaving of rules and burst beats, the core follows the sequential machine and the cache holds the memory the core works on |
| `CoreMemory.SystemStep` | src/lsu/LSU.bsv:88-129 | every rule of the whole is one rule of the core on a flat memory, or none: a match of the cache is the core's oldest read or write, and an acknowledgement stands for an entry of the store buffer |
| `CoreMemory.RespondSame` | src/lsu/LSU.bsv:115-129 | the answer of the cache that a load takes is the word the core owes it, and the load has an address |
| `CoreMemory.WhereMemoryIs` | src/cache/BCache.bsv:56-213 | once every write was performed and the cache is idle, each word of the sequential machine's memory is in the data RAM if a way holds its line, and in main memory otherwise |
| `CoreRegisters.RunUnits` | src/CoreOOO.bsv:143-478 | from reset, through every sequence of rules: each rule fires exactly when it can, finding the state that those before it left, and picks the oldest candidate; what fired, in that order, is a run of the core that follows the sequential machine, and the registers of load queue, store queue, store buffer, reorder buffer, renaming table and issue queues hold what it says; it stops only where `execute_direct` would take the operands of another instruction |
| `CoreSystem.RunSystem` | src/lsu/LSU.bsv:60-225 | the same with the registers of the data cache and main memory in the run, loads taking the cache's answers: each rule of units, load/store unit, cache and bursts fires exactly when it can, and the whole follows the sequential machine |
| `CoreSystem.Fire` | src/lsu/LSU.bsv:60-225 | one rule of the whole: it fires exactly when it can, and unit registers and cache registers end in the state that the rule gives |
| `CoreRegisters.Fire` | src/CoreOOO.bsv:143-478 | one rule fires exactly when the core can do it and the issue queue has room, or when the unit asked to issue has something: the oldest ready instruction, a known store, the oldest readable load if it is not blocked; then all registers follow the core |
| `CoreTheorems.SystemFindsItsSources` | src/CoreOOO.bsv:440-456 | a system instruction waiting at the head finds its own sources first in the queue, and their registers hold the architectural values |
| `CoreTheorems.CommittedLoadIsSequential` | src/lsu/LSU.bsv:136-200 | a load of the current epoch that commits without its killed bit returned the word left by all older committed stores, although it may have issued before their addresses were known |
| `CoreTheorems.BlocksOnOlderStores` | src/lsu/LSU.bsv:136-142 | the blocking test on truncated ages and epochs finds exactly the older stores of the load's epoch that are known to write its word |
| `CoreTheorems.CommitFindsItsQueueEntry` | src/lsu/LSU.bsv:175-200 | when a memory instruction with a result is at the head, the heads of the tag queue and of its own queue are its own, and a store's address and data are known |
| `CoreTheorems.RegistersArePartitioned` | src/PhysRegFile.bsv:40-118 | physical registers 1 to 47 are each in exactly one of the committed names, the destinations in flight and the free list |
| `CoreTheorems.RenameFindsYoungestWriter` | src/PhysRegFile.bsv:120-130 | rename answers with the destination of the youngest current-epoch writer in flight, or else with the committed name |
| `CoreTheorems.ReleasedIsNotFree` | src/PhysRegFile.bsv:67-82 | what a commit releases is never in the free list already |
| `CoreTheorems.WaitsForOlder` | src/CoreOOO.bsv:143-161 | an instruction that is not ready waits for an older one without a result, so no wake-up is lost |
| `CoreTheorems.IndicesAreUnique` | src/ROB.bsv:56-74 | reorder buffer indices never name two instructions in flight |
| `CoreTheorems.AgesAndEpochsCompare` | src/Utils.bsv:85-88 | at most two epochs are in flight, in program order, and 8-bit ages and epochs compare as the unbounded counters |
| `CoreTheorems.InitHolds` | src/PhysRegFile.bsv:33-46 | the reset state is related to the sequential machine with all registers zero |
| `CoreDispatch.DispatchKeeps` | src/CoreOOO.bsv:164-228 | dispatch of a renamed instruction, into the queues its kind needs, keeps the relation |
| `CoreExecute.RenameKeeps` | src/CoreOOO.bsv:458-466 | names read at rename are still right when the instruction is dispatched |
| `CoreExecute.IssueLoadKeeps` | src/lsu/LSU.bsv:142-154 | a load that passes the blocking test will read the committed memory unless it is marked to be executed again |
| `CoreExecute.CacheWriteKeeps` | src/lsu/LSU.bsv:93-96 | a committed store that reaches memory late changes nothing that an executed load may still return |
| `CoreExecute.LoadResponseKeeps` | src/lsu/LSU.bsv:115-129 | the word that comes back is the one the load's slot is owed |
| `CoreExecute.WriteBackKeeps` | src/CoreOOO.bsv:376-380 | write-back in any order keeps registers, wake-ups and results consistent |
| `CoreExecute.ExecDirectKeeps` | src/CoreOOO.bsv:440-456 | the execution of a system instruction at the head keeps the relation, the CSRs running ahead until it commits |
| `CoreQueues.DirectWrite` | src/CoreOOO.bsv:440-456 | the head's sources leave the queue of `execute_direct` with its result, and nobody else's |
| `CoreRetire.DiscardKeeps` | src/CoreOOO.bsv:387-391 | retiring an instruction of an old epoch changes no committed state |
| `CoreRetire.CommitKeeps` | src/CoreOOO.bsv:231-277 | committing the head performs one instruction, or restarts at the head when it was killed |
| `CoreRetire.InterruptKeeps` | src/CoreOOO.bsv:426-437 | an interrupt at the head traps between two instructions |
| `Bits.RotateRight` | src/Utils.bsv:420-428 | rotation by the truncated complement is a rotation for every size |
| `Bits.FirstOneFrom` | src/Utils.bsv:459-475 | the first one in cyclic order from the given index, for every size |
| `Bits.LastOneFrom` | src/Utils.bsv:478-494 | the last one in cyclic order from the given index, for every size |
| `Bits.IsBeforeIsOrder` | src/Utils.bsv:85-88 | the 8-bit comparison orders counters less than 128 apart |
| `Words.StoreWritesItsBytes` | src/lsu/StoreQueue.bsv:97-116 | a placed and masked store writes exactly its own bytes |
| `Words.LoadReadsItsBytes` | src/lsu/LoadQueue.bsv:137-155 | a load returns its own bytes, extended as asked |
| `LsuSpec.OldestReader` | src/lsu/LoadQueue.bsv:124-135 | the oldest executed load of a word, or none |
| `LoadQueue.LoadQ.Enq` | src/lsu/LoadQueue.bsv:61-68 | a load enters at the young end and gets the index of its slot |
| `LoadQueue.LoadQ.WakeupAddr` | src/lsu/LoadQueue.bsv:70-93 | an aligned address becomes known; a misaligned one is reported and stays unknown |
| `LoadQueue.LoadQ.TryIssue` | src/lsu/LoadQueue.bsv:47-107 | the oldest load with an address that has not executed |
| `LoadQueue.LoadQ.Issue` | src/lsu/LoadQueue.bsv:109-114 | marks that load, and no other, as executed |
| `LoadQueue.LoadQ.Deq` | src/lsu/LoadQueue.bsv:116-122 | the oldest load leaves |
| `LoadQueue.LoadQ.Search` | src/lsu/LoadQueue.bsv:124-135 | the cyclic search from the head is the oldest executed load of the word |
| `LoadQueue.LoadQ.Finish` | src/lsu/LoadQueue.bsv:137-155 | the value extracted from the word that came back |
| `StoreQueue.StoreQ.Enq` | src/lsu/StoreQueue.bsv:72-81 | a store enters at the young end, unknown and unreported |
| `StoreQueue.StoreQ.Wakeup` | src/lsu/StoreQueue.bsv:83-95 | address and data of one store become known |
| `StoreQueue.StoreQ.Issue` | src/lsu/StoreQueue.bsv:118-149 | reports one known store once, and none only when there is none |
| `StoreQueue.StoreQ.Deq` | src/lsu/StoreQueue.bsv:97-116 | the oldest store leaves, placed on its word with its byte mask |
| `StoreQueue.StoreQ.Search` | src/lsu/StoreQueue.bsv:55-70 | finds a conflicting store exactly when there is one, and then the youngest |
| `StoreQueue.StoreBuffer.Enq` | src/lsu/StoreBuffer.bsv:30-39 | a committed store enters at the young end |
| `StoreQueue.StoreBuffer.Search` | src/lsu/StoreBuffer.bsv:41-53 | finds the youngest buffered store of the word, if any |
| `StoreQueue.StoreBuffer.Deq` | src/lsu/StoreBuffer.bsv:55-60 | the oldest buffered store leaves |
| `StoreQueue.StoreBuffer.Empty` | src/lsu/StoreBuffer.bsv:62-64 | whether no store is buffered |
| `Rob.ReorderBuffer.Enq` | src/ROB.bsv:56-74 | an instruction enters last, at the index returned, with whatever result its slot holds |
| `Rob.ReorderBuffer.First` | src/ROB.bsv:76-87 | the oldest instruction, its index and its result |
| `Rob.ReorderBuffer.WriteBack` | src/ROB.bsv:105-110 | the slot of any index, and no other, gets the result; the instruction in it, if there is one, has it |
| `Rob.ReorderBuffer.DmemCommit` | src/ROB.bsv:89-93 | the head no longer waits for the memory unit |
| `Rob.ReorderBuffer.Deq` | src/ROB.bsv:95-103 | the oldest instruction leaves, the others keep their order and its slot holds no result |
| `IssueQueue.Queue.Enq` | src/IssueQueue.bsv:77-82 | an instruction enters behind the others |
| `IssueQueue.Queue.Wakeup` | src/IssueQueue.bsv:38-51 | exactly the sources that name the register become ready |
| `IssueQueue.Queue.ReadyIndex` | src/IssueQueue.bsv:30-36 | the oldest instruction whose sources are all ready |
| `IssueQueue.Queue.Deq` | src/IssueQueue.bsv:54-67 | the chosen instruction leaves and the younger ones move down |
| `RenamingTable.Table.Commit` | src/PhysRegFile.bsv:67-82 | the linked free list, names, backup and speculated bits after a commit are those of the specification table |
| `RenamingTable.Table.Allocate` | src/PhysRegFile.bsv:108-118 | the head of the free list becomes the name of the register |
| `RenamingTable.Table.Wakeup` | src/PhysRegFile.bsv:85-89 | the register is not busy any more |
| `RenamingTable.Table.Rename` | src/PhysRegFile.bsv:120-130 | the speculative name if there is one, else the committed one |
| `CoreUnits.DispatchLoad` | src/lsu/LoadQueue.bsv:61-68 | the load queue's registers follow the core model's queue at dispatch |
| `CoreUnits.ConnectLoadQueue` | src/CoreOOO.bsv:368-374 | and when a load gets its address, reporting a misaligned one |
| `CoreUnits.IssueLoadQueue` | src/lsu/LSU.bsv:142-154 | the load offered is the oldest one that can be issued if the blocking test lets it |
| `CoreUnits.MarkLoadQueue` | src/lsu/LoadQueue.bsv:109-114 | and is then marked as the core model marks it |
| `CoreUnits.RetireLoad` | src/lsu/LSU.bsv:175-200 | a load leaves the registers when the core model retires it |
| `CoreUnits.SearchLoads` | src/lsu/LSU.bsv:175-200 | a committing store finds the load the core model marks, by its index |
| `CoreUnits.DispatchStore` | src/lsu/StoreQueue.bsv:72-81 | the store queue's registers follow the core model's queue at dispatch |
| `CoreUnits.ConnectStoreQueue` | src/CoreOOO.bsv:358-366 | and when a store gets its address and data |
| `CoreUnits.IssueStoreQueue` | src/lsu/StoreQueue.bsv:118-149 | a store reported is one the core model can report, with the same outcome; none only when it can report none |
| `CoreUnits.RetireStore` | src/lsu/LSU.bsv:175-200 | a store leaves the registers when the core model retires it, as the beat the model puts in the store buffer |
| `CoreUnits.EnterBuffer` | src/lsu/StoreBuffer.bsv:30-39 | which enters the registers of the store buffer |
| `CoreUnits.DrainBuffer` | src/lsu/StoreBuffer.bsv:55-60 | and leaves them when it is drained |
| `CoreUnits.TestBlocked` | src/lsu/LSU.bsv:136-154 | the two searches on the registers decide the core model's blocking test |
| `CoreUnits.DispatchRob` | src/ROB.bsv:56-74 | the reorder buffer's registers follow `log` at dispatch, at the index that is the number modulo 16 |
| `CoreUnits.WriteBackRob` | src/ROB.bsv:105-110 | and at write-back, also when the instruction has left and its slot is another's |
| `CoreUnits.RetireRob` | src/ROB.bsv:89-103 | and when the head retires |
| `CoreUnits.RenameTable` | src/CoreOOO.bsv:458-466 | the renaming table's registers answer as the core model's table |
| `CoreUnits.DispatchTable` | src/PhysRegFile.bsv:91-118 | allocate as it does |
| `CoreUnits.WakeTable` | src/PhysRegFile.bsv:85-89 | wake up as it does |
| `CoreUnits.RetireTable` | src/PhysRegFile.bsv:67-82 | and commit as it does in every related state, so the linked free list stays one |
| `CoreUnits.DispatchQueue` | src/IssueQueue.bsv:77-82 | an issue queue's registers hold the waiting instructions in program order at dispatch |
| `CoreUnits.WakeQueue` | src/IssueQueue.bsv:38-51 | and after a wake-up |
| `CoreUnits.IssueFromQueue` | src/IssueQueue.bsv:30-67 | and after an issue, of the oldest instruction with both sources ready |
| `BCache.EveryRun` | src/cache/BCache.bsv:56-213 | in every run, whatever the requests and however rules and burst beats interleave, each word returned is the one last written in the order in which requests were matched, and the invariant holds |
| `BCache.StepKeeps` | src/cache/BCache.bsv:56-213 | every rule keeps the invariant |
| `BCache.Fire` | src/cache/BCache.bsv:56-213 | the registers of the class take exactly these steps, a rule firing exactly when it is enabled |
| `BCache.IdleWays` | src/cache/BCache.bsv:107-198 | while nothing is under way a set holds a line once, and a clean line is in memory as the data RAM has it |
| `BCache.MatchInv` | src/cache/BCache.bsv:141-198 | what a match changes in the flat memory and in the words owed |
| `BCache.Cache.Match` | src/cache/BCache.bsv:141-198 | tag matching: where an operation takes effect; an invalidated line is in no way any more, and in memory unless a write-back was started |
| `BCache.Cache.Lookup` | src/cache/BCache.bsv:141-160 | a hit exactly when some way holds the line |
| `BCache.Cache.MissDirty` | src/cache/BCache.bsv:87-101 | a miss over a dirty way starts the write-back of its line |
| `BCache.Cache.MissClean` | src/cache/BCache.bsv:87-101 | a miss over any other way starts the refill |
| `BCache.Cache.Start` | src/cache/BCache.bsv:129-139 | a request is latched when idle |
| `BCache.Cache.ReceiveWord` | src/cache/BCacheUtils.bsv:38-44 | one word of a refill arrives in the data RAM |
| `BCache.Cache.AcquireBlockAck` | src/cache/BCache.bsv:118-127 | the refilled line with the pending operation performed: a load's answer is the flat memory's word |
| `BCache.Cache.ReadBram` | src/cache/BCacheUtils.bsv:108-110 | the write-back reads the flat memory's word from the data RAM |
| `BCache.Cache.SendWord` | src/cache/BCacheUtils.bsv:112-123 | and sends it |
| `BCache.Cache.ReleaseBlockAck` | src/cache/BCache.bsv:107-111 | after the write-back the refill starts, with the evicted line in memory |
| `BCache.Cache.ReleaseBlockAckInv` | src/cache/BCache.bsv:113-116 | an invalidation ends with its line in no way and all of it in memory |
| `BCache.Cache.ReadAck` | src/cache/BCache.bsv:200-205 | the word returned is the one owed to the oldest unanswered load |
| `BCache.TakeOver` | src/cache/BCache.bsv:87-101 | taking over a way keeps every set free of duplicates and every other line where it was |
| `BCache.HitStore` | src/cache/BCache.bsv:160-198 | a store hit keeps cache and memory coherent |
| `BCache.PlacesAreWords` | src/cache/BCache.bsv:237-243 | two addresses share tag, index and offset exactly when they are in the same word |
| `Holes.HolesAreMaximalRuns` | rust/src/hole.rs:648-697 | the holes are exactly the maximal free runs left by the live blocks |
| `Holes.DependsOnlyOnLive` | rust/src/hole.rs:510-697 | the hole list depends only on which blocks are live |
| `Holes.EmptyHeapIsOneHole` | rust/src/hole.rs:510-697 | with nothing live there is one hole over the whole heap |
| `Holes.Canonical` | rust/src/hole.rs:589-643 | separated hole lists with the same free bytes are equal |
| `Holes.CandidateIsLowest` | rust/src/hole.rs:79-187 | if a hole admits any legal split, the address tried is legal and the lowest |
| `Holes.GapAfterHole` | rust/src/hole.rs:244-261 | after a hole there is nothing or room for a header, so `check_merge_top` never fires |
| `Holes.GapBefore` | rust/src/hole.rs:265-275 | before a live block likewise, so `check_merge_bottom` moves nothing |
| `HoleList.List.SplitCurrent` | rust/src/hole.rs:79-239 | splits at the lowest legal address of the hole, or leaves memory unchanged when there is none |
| `HoleList.List.CheckMergeTop` | rust/src/hole.rs:244-261 | what it writes, exactly when too little is left at the top |
| `HoleList.List.CheckMergeBottom` | rust/src/hole.rs:265-275 | what it writes, exactly when too little is left at the bottom |
| `HoleList.List.TryInsertBack` | rust/src/hole.rs:510-542 | links the block first exactly when it is below the first hole |
| `HoleList.List.TryInsertAfter` | rust/src/hole.rs:544-586 | links the block after the cursor exactly when it belongs there |
| `HoleList.List.TryMergeNextN` | rust/src/hole.rs:589-643 | merges until no holes touch, keeping the free bytes |
| `HoleList.List.Insert` | rust/src/hole.rs:648-697 | the walk ends at a legal place, no assertion fails, and the free bytes are the old ones and the block's |
| `HoleList.List.AllocateFirstFit` | rust/src/hole.rs:409-423 | the lowest address of the lowest hole that admits a legal split; None, with nothing changed, exactly when no hole does |
| `HoleList.List.Deallocate` | rust/src/hole.rs:439-443 | the block is free, the list is canonical again, and live blocks keep their contents |
| `HoleList.List.Extend` | rust/src/hole.rs:459-495 | the heap and the pending bytes grow by exactly the amount given |
| `HoleList.List.constructor` | rust/src/hole.rs:347-383 | one hole of the whole aligned words, the rest pending |
| `HoleList.List.OwnerWrites` | rust/src/hole.rs:498-507 | nothing an owner writes in a live block disturbs the list |
| `Heap.Heap.AllocateFirstFit` | rust/src/linked_list_allocator.rs:163-171 | as above, with the byte count, and live blocks untouched |
| `Heap.Heap.Deallocate` | rust/src/linked_list_allocator.rs:184-186 | the byte count goes down by the block's size |
| `Heap.Heap.Extend` | rust/src/linked_list_allocator.rs:242-244 | size and pending grow by exactly the amount given |
| `Heap.Heap.Free` | rust/src/linked_list_allocator.rs:220-222 | free bytes are the sum of the holes: used and free make the size |
| `Heap.Heap.AllocateAndFree` | rust/src/linked_list_allocator.rs:163-186 | freeing what was just allocated restores the identical hole list |
| `Heap.Heap.FreeAll` | rust/src/linked_list_allocator.rs:184-186 | freeing everything in any order leaves one hole |
| `Palloc.PageAlloc.Free` | rust/src/palloc.rs:25-29 | the page heads the list threaded through the free pages |
| `Palloc.PageAlloc.Alloc` | rust/src/palloc.rs:31-42 | the first free page leaves the list; None exactly when there is none |
| `Palloc.PageAlloc.Init` | rust/src/palloc.rs:18-23 | all pages of the range are free, the last one first |
| `PageTables.EntryRoundTrip` | rust/src/vm.rs:32-56 | encoding then decoding an entry gives its parts back |
| `PageTables.EntryIsItsParts` | rust/src/vm.rs:32-56 | and every decodable entry is the encoding of its parts |
| `PageTables.MappedEntry` | rust/src/vm.rs:187-196 | an empty entry set by `map` has exactly the frame and permissions asked for |
| `PageTables.VpnsAreThePage` | rust/src/pointer.rs:90-97 | the three indices together are the page number modulo 2^27 |
| `PageTables.WalkFindsTable` | rust/src/vm.rs:144-160 | the walk ends in the last table on the way, exactly when it exists |
| `PageTables.HardwareAgrees` | rust/src/vm.rs:144-160 | the walk of section 4.3.2 of the RISC-V Privileged Architecture sees the same translations, of pages that can be read or executed and are not write-only |
| `PageTables.EmptyTree` | rust/src/vm.rs:110-119 | one cleared page that is not free is a tree of tables that translates nothing |
| `PageTables.NewTable` | rust/src/vm.rs:110-140 | a cleared free page as a new table keeps the tree and every translation |
| `PageTables.SetLeaf` | rust/src/vm.rs:187-196 | writing a last-level entry changes one page's translation |
| `Vm.InitPtable` | rust/src/vm.rs:110-119 | a cleared page from the free list, or none when it is empty |
| `Vm.WalkAndAlloc` | rust/src/vm.rs:123-140 | the last-level entry of the address; no translation changes, exactly the tables missing on the way are added, from the front of the free list, and every page that leaves the list is one of them; None exactly when the pages do not suffice |
| `Vm.Map` | rust/src/vm.rs:162-198 | page i of the range gets frame first_phys/4096+i with exactly these permissions, no other translation changes, and exactly the tables the range needs are added, from the front of the free list; each way to panic has its cause, and `NoMemory` means that the range needs more new tables than pages were free |
| `Vm.Unmap` | rust/src/vm.rs:200-228 | the range has no translation any more, the others keep theirs, and the frames are freed if asked |
| `Vm.MapAndUnmap` | rust/src/vm.rs:162-228 | a range just mapped can be unmapped, which restores the old translation function |
| `VmRuns.Boot` | rust/src/palloc.rs:18-23 | an allocator given its pages and a root made by `init_ptable` are a tree disjoint from the free list, which translates nothing; there is no root exactly when there are no pages |
| `VmRuns.Serve` | rust/src/vm.rs:162-228 | one call: served if and only if it is legal and the pages it takes are free; the pages of the allocator stay exactly the tables and the free pages |
| `VmRuns.Run` | rust/src/vm.rs:110-228 | from there, through every sequence of `map`, `unmap`, `alloc` and writes of the caller in its own pages: each address translates as the latest call about its page says, the tables are those the calls need, the free list is predicted page by page, the pages of the allocator are exactly these two, every other page holds what the caller wrote, and a run ends exactly at the first call that is illegal or lacks pages |
| `XBar.Crossbar.SendRequest` | src/AXI4_Lite_Adapter.bsv:489-496 | a request goes to the slave `dispatch` chose and waits in order on both sides |
| `XBar.Crossbar.ReceiveResponse` | src/AXI4_Lite_Adapter.bsv:498-508 | every beat passed on answers the oldest unanswered request of that master, from the slave chosen for it |
| `XBar.Crossbar.NoDeadlock` | src/AXI4_Lite_Adapter.bsv:468-508 | while anything is outstanding some pair satisfies the receive guard |
| `XBar.Crossbar.GuardPairs` | src/AXI4_Lite_Adapter.bsv:468-479 | each of the four forms of the guard pairs the oldest requests of both sides |
| `XBar.SameTransfer` | src/AXI4_Lite_Adapter.bsv:323-384 | the heads of the two queues belong to the same transfer |
| `Mshr.Mshr.AllocMSHR` | src/cache/MSHR.bsv:77-95 | fires exactly when an entry is free and the register idle, and starts its list |
| `Mshr.Mshr.AllocEntry` | src/cache/MSHR.bsv:97-124 | appends a request to a busy register's list, whatever the register's tag; on an idle register no lists fit any more |
| `Mshr.Mshr.FreeEntry` | src/cache/MSHR.bsv:132-148 | enabled exactly when the register has a first entry; for a register allocated since reset it returns the oldest request and frees its entry, for any other it breaks the lists |
| `Mshr.Mshr.FreeDone` | src/cache/MSHR.bsv:150-158 | fires exactly when the register has no first entry, which for a register allocated since reset is once every request was returned |
| `Mshr.Mshr.Drain` | src/cache/MSHR.bsv:126-158 | draining a register returns its requests in arrival order if and only if it was allocated since reset or has no first entry |
| `Mshr.EntriesArePartitioned` | src/cache/MSHR.bsv:77-158 | every entry is either free or in the list of exactly one busy register, whatever `firstV` and `lastV` hold of registers never allocated |
| `Mshr.AppendKeeps` | src/cache/MSHR.bsv:97-124 | an append keeps the partition, with `lastV` the true tail |
| `Mshr.ReturnKeeps` | src/cache/MSHR.bsv:132-148 | likewise when an entry is returned |
| `Mshr.AppendBreaks` | src/cache/MSHR.bsv:97-124 | after an append to an idle register no lists fit: an entry is lost |
| `Mshr.ReturnBreaks` | src/cache/MSHR.bsv:132-148 | after an entry was freed for a register never allocated no lists fit: it is in two places |
| `MulDiv.DivisionIsCorrect` | src/MulDiv.bsv:121-154 | for every width, the iteration ends with quotient and remainder |
| `MulDiv.StepDivides` | src/MulDiv.bsv:143-154 | a step keeps the division relation and overflows neither register |
| `MulDiv.TruncatingDivision` | src/MulDiv.bsv:170-185 | the quotient rounds towards zero and the remainder has the sign of the dividend |
| `MulDiv.DivServer.Get` | src/MulDiv.bsv:223-252 | the response is DIV, DIVU, REM or REMU of the request, overflow included |
| `MulDiv.DivServer.Serve` | src/MulDiv.bsv:165-255 | every request is answered after finitely many steps |
| `MulDiv.StepAdds` | src/MulDiv.bsv:35-43 | a step of four bits keeps accumulator plus product modulo 2^64 |
| `MulDiv.MulServer64.Get` | src/MulDiv.bsv:59-62 | after exactly sixteen steps the product modulo 2^64 |
| `MulDiv.FastMultiply` | src/MulDiv.bsv:88-99 | the low or high half of the exact signed, mixed or unsigned product |
| `MulDiv.SlowMultiply` | src/MulDiv.bsv:74-107 | the small multiplier gives the same answer |
| `Crc16.StepIsEightShifts` | soft/src/sdcard.zig:21-27 | the five assignments are eight bit-serial division steps |
| `Crc16.SerialIsRemainder` | soft/src/sdcard.zig:16-36 | the register after a message is the remainder of the message times x^16 |
| `Crc16.SerialDivides` | soft/src/sdcard.zig:16-36 | a register is that of a message if and only if the message times x^16 is some quotient times x^16 + x^12 + x^5 + 1, plus the register |
| `Crc16.DivisionIsUnique` | soft/src/sdcard.zig:16-36 | quotient and register are the only ones with that property |
| `Crc16.Compute` | soft/src/sdcard.zig:29-35 | the loop computes that remainder for every buffer |
| `Crc16.BurstsAreDetected` | soft/src/sdcard.zig:16-36 | messages that differ only within sixteen consecutive bits never have the same CRC |
| `Crc16.NeighbouringBytes` | soft/src/sdcard.zig:29-35 | nor do buffers that differ only in two neighbouring bytes |
| `Tmds.DecodeEncode` | src/tmds_encoder.v:76-147 | every emitted word decodes to its byte |
| `Tmds.BiasCounts` | src/tmds_encoder.v:130-148 | the bias register counts half of ones minus zeros and stays within -4..4 |
| `Tmds.FewTransitions` | src/tmds_encoder.v:94-106 | at most three transitions in the data bits of a word, so none equals a control symbol |
| `Tmds.Encoder.Clock` | src/tmds_encoder.v:111-149 | one clock: a control symbol, or a word that decodes to the byte |
| `Tmds.Run` | src/tmds_encoder.v:111-149 | over every sequence of pixels and blankings each symbol is the control symbol or decodes to its byte, and at every clock the register holds the disparity since the last blanking, within four of balance |
| `SdramProofs.EveryRun` | src/SDRAM.bsv:366-478 | in every run the commands are legal, the requests put reach their banks in order, and each response is the word last written |
| `SdramProofs.TransfersNeverMeet` | src/SDRAM.bsv:206-220 | no two transfers share a cycle of the data bus |
| `SdramProofs.LegalAt` | src/SDRAM.bsv:282-335 | each command finds the rows open or closed and the delays over as the chip requires: READ and WRITE on the open row requested, AUTOREFRESH with all banks closed and past their delays |
| `SdramProofs.StepKeeps` | src/SDRAM.bsv:164-478 | every rule keeps the invariant |
| `SdramProofs.ReadData` | src/SDRAM.bsv:298-305 | the chip drives the word the bank wants, at times no other read uses |
| `SdramProofs.FinishReadBank` | src/SDRAM.bsv:307-319 | the read takes from the bus the two halves driven for it |
| `SdramProofs.GetReturnsOwed` | src/SDRAM.bsv:470-475 | responses leave in request order |
| `SdramProofs.PlacesAreWords` | src/SDRAM.bsv:428-435 | bank, row and column are the low 23 bits of a word address |
| `SdramDelays.DelaySdram.UpdateBankDelay` | src/SDRAM.bsv:171-176 | every counter goes down by one, not below zero |
| `SdramDelays.DelaySdram.LocalSend` | src/SDRAM.bsv:182-187 | fires exactly when the bank's delay is over |
| `SdramDelays.DelaySdram.GlobalSend` | src/SDRAM.bsv:192-202 | fires exactly when all banks' delays are over |
| `SdramDelays.DelaySdram.Read` | src/SDRAM.bsv:206-212 | when it fires, the next read can start after exactly `rd` cycles, the next write after `wr` cycles and not before it could have anyway |
| `SdramDelays.DelaySdram.Write` | src/SDRAM.bsv:214-220 | likewise for a write |
| `SdramDelays.OverAfter` | src/SDRAM.bsv:169-176 | a counter lets its command pass once, and only once, as many cycles are over |
| `SdramDelays.SendLocal` | src/SDRAM.bsv:282-335 | the calls a bank's command makes all fire when its rule can, and leave the counters of the controller model |
| `SdramDelays.SendToAll` | src/SDRAM.bsv:437-462 | likewise for the commands to all banks |

## Left out

- MMIO loads and stores, their queues, and the CBO invalidations of the load/store unit: they only add cases.
- Floating point: the FLOAT configuration and src/FPoint.bsv.
- Branch prediction and its training: predictions carry no correctness obligation, and the predicted pc is arbitrary.
- CSR contents: time, counters, interrupt pins and CSR instructions are parameters; interrupts may come at any commit the code allows.
- Self-modifying code: program memory does not change, so FENCE.I and the fetch unit's cache are not modelled.
- The FIFOs between the load/store unit and its cache are unbounded.
- The floating-point issue queue; the front end, the register file and the FIFOs between the units appear in `CoreRegisters.RunUnits` and `CoreSystem.RunSystem` as in the core model.
- The order of `decodeFail` and of the functional units' output FIFOs: any result on its way may be written next.
- src/cache/Cache.bsv (nothing refills a line), src/Core.bsv, src/Pipeline.bsv and src/STB.bsv (the simpler in-order core), src/sdram_axi.v.
- The write crossbars and the misaligned-access adapters of src/AXI4_Lite_Adapter.bsv.
- src/Decode.bsv, src/ALU.bsv and soft/src/riscv.zig: tables.
- UART, SPI, SD commands, VGA timing, buttons, PLLs and pin-level fabrics.
- Address arithmetic that overflows the machine word in the heap and the page tables; a layout too large for the address space is modelled (`TooLarge`).
- Zero-size requests of the kernel's `Allocator` implementation, which never reach the heap.
- Superpages: `map` never makes them; only the reference walk knows them.
- The DQM mask latency of SDRAM reads and the half-cycle of the inverted SDRAM clock.
- Several page tables sharing one page allocator: the model has one table, and leaves untouched every page that is neither its own nor free.
- VmRuns.Run: what tables a `map` that panics half-way leaves is stated (a tree still), but not which part of its range is mapped then; the caller releases and writes only pages of its own.
- CoreTheorems.RunRelatedExactly: after `execute_direct` took the operands of another instruction no state of the sequential machine is related. Whether committed registers then differ depends on the machine (`CoreWitness.WrongOperands`, `CoreUnseen.NobodySees`); for which machines and programs they do is not characterised.
- BCache.Cache.MemoryRead: the memory answers beat by beat in order; bursts of other masters in between are not modelled.
- SdramProofs.EveryRun: safety for every schedule; that requests are eventually served is not claimed.
- CoreTheorems.RunRefines: safety for every run; that some instruction eventually commits is not claimed.
