# A verified model of the mini-BEAM runtime

The system is a small BEAM-style runtime for microcontrollers. Up to eight
processes execute bytecode on sixteen registers of tagged 32-bit terms. Each
process has a semi-space heap with a copying collector and a bounded mailbox of
32 commands; a round-robin scheduler gives a process up to 64 instructions a
tick. A flow compiler turns a description of sensors and actuators into the
programs that run on it.

The model has two layers. Functions on values say what each operation computes
and carry the theorems about all states, runs and programs. Classes with the
runtime's own fields, arrays and loops (`Heap`, `Mailbox.Buffer`, `Process`,
`Scheduler`) do the same work in place, and each method is proved to leave
exactly the state that the function gives; so the theorems hold of the classes.

| file | about |
|---|---|
| Term, Cheney, Graph, Collector, Landing, Preservation, EmptyTuples | tagged words, the collector, the object graph, the isomorphism, where objects land, and the exact precondition |
| HeapModel, Heap | allocation and collection on values, and in place |
| Commands, Mailbox, Bytecode, Machine, Process | commands, the ring buffer, decoding, one instruction, the process object |
| Encoding, Meanings, Structures, Posting, Delays, Limits | the same from outside, in numbers: the opcode table, what each instruction leaves, heap instructions on data, who gets mail, how long a process rests and runs, how many fit |
| TreeMachine, Refinement, Runs, Retry | the machine on immutable trees, the refinement to it, whole runs, the MAKE_TUPLE retry |
| System, Scheduling, Progress, Messages, TableSafety, Projection, RunBound, Scheduler | the process table, its invariants, fairness and delivery, message contents, term safety, the run of each slot, the instruction bound, the scheduler object |
| FlowCompiler, FlowProcesses, FlowTraces, FlowRuns, FlowHistories, FlowDelivery, FlowCalls, FlowPauses | the flow compiler and its output under the scheduler: what the programs do, what a trace tells, single steps, whole histories, readings, the driver's calls, pauses, and what validation admits |

What the hardware answers to one instruction (a driver's status, a byte, the
clock) is a parameter `Io`; a run takes a function from instruction count to
`Io`, so every claim is for all answers. An access outside an array, which the
program would perform unchecked, makes the result of a function on values
`Stuck`, `Crashed`, `Undefined` or `Broken`; term safety says that these do not
occur. The scheduler theorems hold for every instruction set with the
discipline stated by `Machine.Tame`, of which the machine is one.

Functions of the machine are not their own specification: `Encoding` writes the
opcode table from instructions to bytes and proves that decoding inverts it,
`Meanings` states the whole state after each decoded instruction with literal
tags, ranges, codes and offsets, and `Posting`, `Delays` and `FlowPauses` say
what follows for senders, sleepers and sensors over whole histories.

Five named conditions appear in the theorems:

- `Roomy`: no live tuple of arity 0 ends the space or is followed directly by
  a live object. `EmptyTuples.RoomyIsExact` proves that this is exactly when
  the collector is right for every list of roots that keeps the same objects
  alive. The list may be longer than the 16 registers: `mb_heap_gc` takes any
  number of roots.
- `CollectSafe`: if the next instruction has to collect, the heap is roomy, and
  every pointer from which it builds a tuple is to an object that lands where
  it lies. `Landing.LandsAt` computes that place from the state before.
- `Runnable`: the flow passes validation, has a route, and has 1 to 7 sensors.
- `Keepable`: a poll interval that r6, in 28 bits, and the clock, in 32, can
  keep: up to 2^27 - 1, or from 2^32 - 2^27 on.
- `Bearable`: what RECV_CMD shows of a command's first two fields, in signed 28
  bits, is a PWM channel and a duty in range.

Where the code differs from its comments or intent, the model follows the code:

- MAKE_TUPLE says it reads the registers again after a collection; it stores
  the words read before (`src/mb_vm.c:545-552`). CONS does read again.
- A forwarding pointer is two words even for a one-word tuple
  (`src/mb_heap.c:96-98`), although MAKE_TUPLE allows arity 0.
- SEND overwrites the PID register with its status (`src/mb_vm.c:430`), and a
  compiled sensor never reloads it (`tools/flow_compile.escript:100-117`): a
  sensor has at most one command accepted in its life, contrary to the stated
  purpose of its loop. A refused reading leaves status 8, 9 or 11 there. So
  with up to six sensors only the first reading counts, and nothing gets across
  if it is out of range; with seven, 8 is the actuator's PID, and the first
  reading in range gets across. `FlowTraces.Delivered` says this as a function
  of the readings.
- The actuator's PWM call reads two registers of whatever command arrives, and
  does not look at its kind (`tools/flow_compile.escript:120-126`): a valid
  command of another kind is driven as a duty, or faults.
- YIELD sets the instruction count to 64 rather than ending the run
  (`src/mb_vm.c:449`), so the bound given to mb_proc_run holds only up to 65.
- Validation admits every poll interval that is not negative, but r6 shows it
  in signed 28 bits: from 2^27 ms on a sensor pauses for another time than
  declared, or not at all (`tools/flow_compile.escript:56-60`,
  `src/mb_vm.c:507`). `FlowPauses.PauseIsSleep` says which intervals are kept.
- A jump past the program's end stores the counter before it fails
  (`src/mb_vm.c:462-466`).
- Fresh registers hold the word 0, which is not a term and has the pattern of
  the header of an empty tuple; the heap theorems allow it everywhere.

## Model

| member | source | states |
|---|---|---|
| Term.SmallintRoundTrip | erts/example/mini_beam_esp32/include/mb_term.h:42-46 | untagging a tagged integer gives its value in signed 28 bits, which is the integer itself exactly when it is in the documented range |
| Term.SmallintCanonical | erts/example/mini_beam_esp32/include/mb_term.h:42-43 | retagging what was untagged gives back the same word |
| Machine.ArithmeticIsModular | erts/example/mini_beam_esp32/src/mb_vm.c:274-298 | ADD and SUB, executed on any two registers, agree with integer arithmetic modulo 2^28, exactly when the result is in range, and change only the destination |
| Term.PointerRoundTrip | erts/example/mini_beam_esp32/include/mb_term.h:65-69 | a heap offset survives tagging as BOXED or CONS |
| Graph.LiveIsLeastClosed | erts/example/mini_beam_esp32/src/mb_heap.c:127-162 | the objects alive from a set of roots are the least set that contains the roots' targets and is closed under fields |
| Graph.LiveIsReachable | erts/example/mini_beam_esp32/src/mb_heap.c:127-162 | an object is alive iff a chain of fields leads to it from a root |
| Graph.DenotesUnique | erts/example/mini_beam_esp32/src/mb_heap.c:63-125 | a term stands for at most one tree |
| Collector.UnmovedIsNotMarked | erts/example/mini_beam_esp32/include/mb_term.h:78-82 | the first word of a live object that was not moved never equals the forwarding marker 0xDEAD0002, a tuple shows its header, and the object lies below hp |
| Collector.ForwardingIsLeft | erts/example/mini_beam_esp32/src/mb_heap.c:91-121 | the first copy of an object moves its words to hp and leaves 0xDEAD0002 and the new offset behind; a second copy returns the same pointer and changes nothing |
| Collector.HeadersAreUnambiguous | erts/example/mini_beam_esp32/src/mb_heap.c:143-162 | where the scan stands at the start of a round, a word has the header pattern iff a copied tuple starts there or the word is 0 |
| Collector.CopyTermKeeps | erts/example/mini_beam_esp32/src/mb_heap.c:63-125 | copying one valid term never leaves the spaces, follows or leaves a forwarding pointer, and keeps the collection invariant: sizes, untouched objects, markers, placement and the words copied so far |
| Collector.RoundKeeps | erts/example/mini_beam_esp32/src/mb_heap.c:145-162 | a round of the scan keeps the invariant and moves from one boundary between objects (or inside a cons cell) to the next |
| Collector.ScanKeeps | erts/example/mini_beam_esp32/src/mb_heap.c:144-162 | the scan terminates at the allocation pointer without leaving the spaces, and then every copied field was redirected |
| Collector.CollectIsIsomorphism | erts/example/mini_beam_esp32/src/mb_heap.c:127-168 | a collection stays inside both spaces and renames the live objects by an injective map: every root and field is the old one redirected, nothing dead is copied, and the new hp is the size of the live data, at most the old hp |
| Preservation.MovedDenotes | erts/example/mini_beam_esp32/src/mb_heap.c:63-168 | a term stands for the same trees before and after the collection, in both directions |
| Preservation.SharingKept | erts/example/mini_beam_esp32/src/mb_heap.c:79-98 | two terms are the same word after the collection iff they were before |
| Preservation.AllLiveAfterwards | erts/example/mini_beam_esp32/src/mb_heap.c:138-162 | the new heap holds live objects only |
| Preservation.NoEmptyTuplesIsRoomy | erts/example/mini_beam_esp32/src/mb_heap.c:96-98 | without live empty tuples there is always room for the forwarding pointers |
| Preservation.EmptyTupleCorruptsNeighbour | erts/example/mini_beam_esp32/src/mb_heap.c:96-98 | a heap of three words where forwarding an empty tuple destroys the head of the list cell behind it |
| EmptyTuples.CrampedFails | erts/example/mini_beam_esp32/src/mb_heap.c:96-98 | when a live empty tuple ends the space or touches a live object, there are roots, keeping the same objects alive, for which the collection is wrong or leaves the space |
| EmptyTuples.RoomyIsExact | erts/example/mini_beam_esp32/src/mb_heap.c:63-168 | the collection is right for every list of roots, of any length, that keeps the same objects alive, iff no live empty tuple ends the space or is followed by a live object |
| Landing.RootsLand | erts/example/mini_beam_esp32/src/mb_heap.c:138-141 | a pointer among the roots comes out pointing to the total size of the objects that the roots before the first root with its target point to |
| HeapModel.PlaceObject | erts/example/mini_beam_esp32/src/mb_heap.c:12-54 | an allocation keeps the layout of the heap, adds one object at the old hp and changes no word below it |
| HeapModel.PlaceKeepsTrees | erts/example/mini_beam_esp32/src/mb_heap.c:12-54 | an allocation changes the tree of no existing term |
| Heap.SemiSpace.constructor | erts/example/mini_beam_esp32/src/mb_heap.c:5-10 | a new heap is two zeroed spaces |
| Heap.SemiSpace.Init | erts/example/mini_beam_esp32/src/mb_heap.c:5-10 | initialisation clears both spaces in place and resets hp and the collection count |
| Heap.SemiSpace.Alloc | erts/example/mini_beam_esp32/src/mb_heap.c:12-20 | reserves n words iff they fit and otherwise changes nothing |
| Heap.SemiSpace.MakeTuple | erts/example/mini_beam_esp32/src/mb_heap.c:22-39 | in place: header and elements at the old hp, or 0 and no change when there is no room |
| Heap.SemiSpace.Cons | erts/example/mini_beam_esp32/src/mb_heap.c:41-54 | in place: head and tail at the old hp, or 0 and no change |
| Heap.SemiSpace.CopyTerm | erts/example/mini_beam_esp32/src/mb_heap.c:63-125 | in place: the effect on both spaces and hp, and the returned term, are those of the copy on values for which the isomorphism is proved |
| Heap.SemiSpace.CopyRoots | erts/example/mini_beam_esp32/src/mb_heap.c:138-141 | in place: the root loop computes the copies of all roots, in order |
| Heap.SemiSpace.ScanAll | erts/example/mini_beam_esp32/src/mb_heap.c:143-162 | in place: the scan loop computes the scan on values |
| Heap.SemiSpace.Collect | erts/example/mini_beam_esp32/src/mb_heap.c:127-168 | in place: swap, copy, scan, clear and count leave exactly the heap and registers of the collection on values |
| Mailbox.PushAppends | erts/example/mini_beam_esp32/src/mb_vm.c:100-115 | the ring refines a queue of at most 32 valid commands: a push appends the command, or changes nothing and returns the validation error or MAILBOX_FULL |
| Mailbox.PopTakesOldest | erts/example/mini_beam_esp32/src/mb_vm.c:117-125 | a pop takes the oldest command and fails exactly on the empty queue |
| Mailbox.Buffer.Push | erts/example/mini_beam_esp32/src/mb_vm.c:100-115 | in place: the ring after a push |
| Mailbox.Buffer.Pop | erts/example/mini_beam_esp32/src/mb_vm.c:117-125 | in place: the ring after a pop, and the command taken |
| Bytecode.Decode | erts/example/mini_beam_esp32/src/mb_vm.c:240-678 | decoding advances, stays inside the program when it starts there, and yields only register operands below 16 |
| Encoding.DecodesEncoded | erts/example/mini_beam_esp32/include/mb_vm.h:30-50 | the bytes of an instruction as the opcode table spells them, at any place in any program, decode to that instruction, operands in order, and the program counter moves past them |
| Encoding.DecodeInvertsEncode | erts/example/mini_beam_esp32/src/mb_vm.c:240-678 | an instruction is decoded at a place exactly if its bytes, for some register as the unused third operand of MOVE, stand there: no other bytes mean it |
| Encoding.FixedOperands | erts/example/mini_beam_esp32/src/mb_vm.c:260-301 | every opcode with a fixed number of operands, given with how many bytes follow and how many name registers: EOF at the end of the program iff bytes are missing, BAD_REG behind all of them iff one names no register, decoded otherwise |
| Encoding.OperandLoopFaults | erts/example/mini_beam_esp32/src/mb_vm.c:311-320 | the operand loop stops at its first bad byte: EOF if it is missing, BAD_REG right behind it if it names no register |
| Encoding.CountedLoop | erts/example/mini_beam_esp32/src/mb_vm.c:300-327 | CALL_BIF and MAKE_TUPLE with a count in range fail at the first bad operand, EOF or BAD_REG, and decode iff all operands, the destination of a BIF included, are there |
| Encoding.CountedOperands | erts/example/mini_beam_esp32/src/mb_vm.c:516-541 | a count out of range is BAD_ARGC or BAD_ARITY, and MAKE_TUPLE looks at the arity before its destination |
| Encoding.NoOpcode | erts/example/mini_beam_esp32/src/mb_vm.c:674-677 | a byte that is none of the nineteen opcodes is BAD_OPCODE, and behind the program there is only EOF |
| Machine.Step | erts/example/mini_beam_esp32/src/mb_vm.c:240-678 | what every instruction of arbitrary bytecode respects: PID and program stay, only RECV_CMD takes mail and it takes the oldest, a process starts waiting only at a RECV_CMD with no mail and then nothing else changes, and SEND by itself changes only its own program counter |
| Meanings.LoadsConstant | erts/example/mini_beam_esp32/src/mb_vm.c:257-272 | NOP only moves on; CONST_I32 loads 28 bits of the value above the tag 15, and the register then shows it in signed 28 bits |
| Meanings.CopiesWord | erts/example/mini_beam_esp32/src/mb_vm.c:274-298 | MOVE copies a word of any kind; SELF loads the PID times 16 plus the tag 3 |
| Meanings.HaltStops | erts/example/mini_beam_esp32/src/mb_vm.c:669-672 | HALT leaves a process that no further step changes |
| Meanings.YieldExhausts | erts/example/mini_beam_esp32/src/mb_vm.c:448-450 | YIELD sets the instruction count to 64 and nothing else |
| Meanings.JumpsFrom | erts/example/mini_beam_esp32/src/mb_vm.c:452-468 | a jump counts from behind itself, forward and backward; before the program it fails with EOF and stays there, past the end it fails at the target |
| Meanings.JumpsIfZero | erts/example/mini_beam_esp32/src/mb_vm.c:470-493 | the conditional jump is taken iff the register holds the word 15, the smallint 0 |
| Meanings.SleepSetsDeadline | erts/example/mini_beam_esp32/src/mb_vm.c:495-514 | SLEEP_MS stores the clock plus what the register shows, modulo 2^32, and the process sleeps |
| Meanings.UndecodedFails | erts/example/mini_beam_esp32/src/mb_vm.c:251-256 | what does not decode changes only the program counter and the error |
| Meanings.BifAnswers | erts/example/mini_beam_esp32/src/mb_vm.c:132-224 | every call of a BIF: which argument counts and ranges, in numbers, are accepted, which fault the others give in which order with every register unchanged, and what the destination, and no other register, shows after an accepted call: the byte for the two reads when the driver succeeds, the clock, or the driver's status |
| Meanings.ConsWrites | erts/example/mini_beam_esp32/src/mb_heap.c:41-54 | CONS with room writes head and tail at hp and loads hp times 16 plus the tag 1; no other word or register changes |
| Meanings.ConsCollects | erts/example/mini_beam_esp32/src/mb_heap.c:127-168 | CONS without room collects once, which is counted, and clears the space that was in use |
| Meanings.TupleWrites | erts/example/mini_beam_esp32/src/mb_heap.c:22-39 | MAKE_TUPLE with room writes 64 times the arity and the elements in order at hp, and loads hp times 16 plus the tag 2 |
| Meanings.CellReads | erts/example/mini_beam_esp32/src/mb_vm.c:625-667 | HEAD and TAIL read the first and second word behind a pointer with tag 1 and refuse every other word |
| Meanings.ElementReads | erts/example/mini_beam_esp32/src/mb_vm.c:562-593 | TUPLE_ELEM follows a pointer with tag 2 to a header that is a multiple of 64, and fails with BAD_TERM or BAD_ARITY |
| Meanings.SpawnedIsFresh | erts/example/mini_beam_esp32/src/mb_vm.c:230-238 | a spawned process is READY at address 0 with sixteen registers of 0, an empty mailbox and an empty heap |
| Process.Process.FetchInstr | erts/example/mini_beam_esp32/src/mb_vm.c:17-38 | in place: byte-wise fetching decodes the instruction and leaves the program counter where the fetches stopped, faults included |
| Process.Process.FetchRegs | erts/example/mini_beam_esp32/src/mb_vm.c:311-320 | in place: the operand loop fetches and checks registers one at a time |
| Process.Process.Receive | erts/example/mini_beam_esp32/src/mb_vm.c:329-383 | in place: RECV_CMD delivers the oldest command, or rewinds and waits |
| Process.Process.RunBif | erts/example/mini_beam_esp32/src/mb_vm.c:132-224 | in place: argument count and ranges are checked before the driver answers, and only the destination register and last_error change |
| Process.Process.RunTuple | erts/example/mini_beam_esp32/src/mb_vm.c:516-560 | in place: MAKE_TUPLE with its collection and its retry on the words read before |
| Process.Process.RunCons | erts/example/mini_beam_esp32/src/mb_vm.c:595-623 | in place: CONS with its collection and its retry on the registers read again |
| Process.Process.RunRead | erts/example/mini_beam_esp32/src/mb_vm.c:562-593 | in place: TUPLE_ELEM, and HEAD and TAIL likewise, with their tag, header and index checks |
| Process.Process.Accept | erts/example/mini_beam_esp32/src/mb_vm.c:426-429 | in place: a pushed command readies a waiting receiver |
| Process.Process.Init | erts/example/mini_beam_esp32/src/mb_vm.c:230-238 | in place: a slot is cleared and set READY with its program and an empty heap |
| Process.Process.Step | erts/example/mini_beam_esp32/src/mb_vm.c:240-678 | one instruction in place leaves exactly the process, status or outgoing command that the step on values gives, for every program and input |
| Refinement.RegistersStay | erts/example/mini_beam_esp32/src/mb_vm.c:611-620 | a collection from the registers leaves hp at the size of the live data, and leaves a register as it is iff it holds no pointer, or one to an object that lands where it lies |
| Refinement.CollectRefines | erts/example/mini_beam_esp32/src/mb_vm.c:611-620 | a collection from the 16 registers changes no register's tree |
| Refinement.ConsRefines | erts/example/mini_beam_esp32/src/mb_vm.c:595-623 | CONS builds the cell of its operands' trees, collection in the middle or not |
| Refinement.MakeTupleRefines | erts/example/mini_beam_esp32/src/mb_vm.c:516-560 | MAKE_TUPLE builds the tuple of its operands' trees, if no collection happens or the object of every pointer element lands where it lies |
| Refinement.TupleElemRefines | erts/example/mini_beam_esp32/src/mb_vm.c:562-593 | TUPLE_ELEM reads the element of the tree, with the same errors |
| Refinement.CellRefines | erts/example/mini_beam_esp32/src/mb_vm.c:625-667 | HEAD and TAIL read the parts of the tree, with the same errors |
| Refinement.StepRefines | erts/example/mini_beam_esp32/src/mb_vm.c:240-678 | one step of arbitrary bytecode reads heap words below hp only, leaves no space, forges no pointer, and is the step of the machine on immutable trees |
| Refinement.OutOfMemoryIsExact | erts/example/mini_beam_esp32/src/mb_vm.c:542-557 | on a roomy heap CONS and MAKE_TUPLE return HEAP_OOM iff the data reachable from the registers plus the request exceeds the capacity, and otherwise succeed, whatever the operands |
| Structures.ConsBuilds | erts/example/mini_beam_esp32/src/mb_vm.c:595-623 | CONS, collecting or not, leaves a register that stands for the cell of its operands' data, or HEAP_OOM iff it does not fit beside the live data; every other register keeps its data |
| Structures.TupleBuilds | erts/example/mini_beam_esp32/src/mb_vm.c:516-560 | MAKE_TUPLE likewise, with its operands in order, under the collection guard |
| Structures.ConsThenOpen | erts/example/mini_beam_esp32/src/mb_vm.c:595-667 | HEAD and TAIL give back what CONS put together |
| Structures.TupleThenOpen | erts/example/mini_beam_esp32/src/mb_vm.c:516-593 | TUPLE_ELEM gives back each element of what MAKE_TUPLE put together, and BAD_ARITY beyond |
| Runs.RunRefines | erts/example/mini_beam_esp32/src/mb_vm.c:240-694 | every run of one process, with deliveries, wake-ups and budgets interleaved and any number of collections, is the run of the tree machine that is told, at each step, where the registers point and whether the live data leave room |
| Runs.ArbitraryBytecodeIsSafe | erts/example/mini_beam_esp32/src/mb_vm.c:240-678 | for any byte string as program and any run under the collection guard, registers and heap stay well formed |
| Retry.MakeTupleRetryExact | erts/example/mini_beam_esp32/src/mb_vm.c:542-557 | after a collection the tuple holds what its registers hold iff, for every pointer element, the objects that registers before the first one with its target point to add up to the target's own offset |
| Retry.StaleStep | erts/example/mini_beam_esp32/src/mb_vm.c:545-552 | two CONS and a MAKE_TUPLE, from the state after spawning, lead to a tuple with a pointer that the collection made stale |
| Retry.StaleTupleIsUnsafe | erts/example/mini_beam_esp32/src/mb_vm.c:545-552 | no description of the heap makes a process in that state well formed |
| TableSafety.HistoryHolds | erts/example/mini_beam_esp32/src/mb_scheduler.c:12-83 | a property of processes that instructions keep, and that spawning establishes, holds of every slot after every history of ticks, sends and spawns, and no history ends in an undefined access |
| TableSafety.TableIsTermSafe | erts/example/mini_beam_esp32/src/mb_scheduler.c:12-83 | from power-up, with arbitrary bytecode in every slot, no action touches foreign memory and every process stays well formed, as long as every collection is one the guard allows |
| TableSafety.TermSafetyNeedsTheGuard | erts/example/mini_beam_esp32/src/mb_vm.c:545-552 | a program of 12 bytes, spawned at power-up and run for one tick on a heap of four words, ends with an ill-formed heap, for any clock and hardware |
| TableSafety.ListsAreCollectSafe | erts/example/mini_beam_esp32/src/mb_vm.c:595-667 | registers that hold lists only satisfy the guard: whatever description of the heap one takes, only cons cells are alive |
| TableSafety.ListProgramsAreSafe | erts/example/mini_beam_esp32/src/mb_scheduler.c:12-83 | histories of programs that contain no MAKE_TUPLE are safe without any guard |
| Projection.SlotsRun | erts/example/mini_beam_esp32/src/mb_scheduler.c:12-83 | whatever a history does, the slots are independent machines: from power-up each slot is unused, or is where a run of a program spawned into it leads, with as many instructions as the trace has of that process, and with exactly the commands accepted for it delivered, in order |
| Projection.TableRefines | erts/example/mini_beam_esp32/src/mb_scheduler.c:12-83 | so, as long as every collection is one the guard allows, each used slot of the table is at every moment where the tree machine leads when it runs the slot's program from registers of 0, told the truth about addresses and room |
| RunBound.BudgetLimits | erts/example/mini_beam_esp32/src/mb_vm.c:680-694 | with max_steps at most 65 a call executes at most the remaining budget of instructions |
| RunBound.StepLimitHolds | erts/example/mini_beam_esp32/src/mb_vm.c:448-450 | max_steps bounds the instructions of a call, for every program, iff it is at most 65 |
| RunBound.YieldLoopNeverEnds | erts/example/mini_beam_esp32/src/mb_vm.c:680-694 | with max_steps of 67 or more a program of YIELD and a jump back keeps a call running for any number of instructions |
| Delays.SixtyFourInstructions | erts/example/mini_beam_esp32/src/mb_vm.c:680-694 | a tick executes exactly 64 instructions of the process it dispatches, or fewer, up to the first that fails, blocks, sleeps, halts or is a YIELD, and returns the status of the last |
| Delays.SleepLasts | erts/example/mini_beam_esp32/src/mb_vm.c:495-514 | SLEEP_MS ends the slice, and until a tick reads the clock plus the register, modulo 2^32, the process is not dispatched and executes nothing, in any history |
| Delays.SleepEnds | erts/example/mini_beam_esp32/src/mb_scheduler.c:50-59 | the first tick at or after that time runs the sleeper or leaves it READY, and within eight more ticks it has been dispatched |
| Delays.HaltLasts | erts/example/mini_beam_esp32/src/mb_vm.c:669-672 | HALT ends the slice, and no history dispatches the process again |
| Limits.TableHoldsEight | erts/example/mini_beam_esp32/src/mb_scheduler.c:12-23 | from power-up any programs can be spawned iff they are at most eight; of more, the first eight are in the table |
| Scheduling.PostKeeps | erts/example/mini_beam_esp32/src/mb_scheduler.c:35-48 | a send appends one valid command to one mailbox and readies its owner if it was waiting, or changes nothing |
| Posting.ValidateDecides | erts/example/mini_beam_esp32/src/mb_vm.c:74-96 | which fields are in range for each of the seven kinds of command, in numbers; another kind is INVALID_COMMAND, a field out of range BAD_ARGUMENT |
| Posting.PostDecides | erts/example/mini_beam_esp32/src/mb_scheduler.c:35-48 | a send is BAD_PID iff the PID is not in 1..count, else the command's own error, else MAILBOX_FULL iff 32 commands are queued, and accepted in all other cases, whatever the receiver's state: its queue grows by the command and it is readied iff it was waiting |
| Posting.SendReplies | erts/example/mini_beam_esp32/src/mb_vm.c:385-432 | SEND always succeeds as an instruction: it addresses the low 8 bits of its first register, leaves 0, 7, 8, 9 or 11 there by the same decision, changes no other register of anybody, and appends the command to that one queue, the sender's own included |
| Scheduling.StepKeeps | erts/example/mini_beam_esp32/src/mb_vm.c:385-432 | one instruction keeps the table in order and all mail accounted for; other processes can only get mail |
| Scheduling.LoopKeeps | erts/example/mini_beam_esp32/src/mb_vm.c:680-694 | a call of mb_proc_run leaves as trace only instructions of its own process, at most the budget |
| Scheduling.TickKeeps | erts/example/mini_beam_esp32/src/mb_scheduler.c:61-83 | a tick runs at most 64 instructions of one process, or only wakes sleepers and returns IDLE |
| Scheduling.SpawnKeeps | erts/example/mini_beam_esp32/src/mb_scheduler.c:12-23 | spawning takes slot count with PID count + 1, or returns 0 and changes nothing on a full table |
| Scheduling.HistoryKeeps | erts/example/mini_beam_esp32/src/mb_scheduler.c:12-83 | every history keeps the table invariant and conserves mail |
| Scheduling.MailIsFifo | erts/example/mini_beam_esp32/src/mb_vm.c:100-125 | in every reachable state, for every process, the accepted commands are, in order, the received ones followed by those in the ring |
| Scheduling.NoLostWakeUp | erts/example/mini_beam_esp32/src/mb_vm.c:369-373 | in every reachable state a WAITING process has an empty mailbox and stands at a RECV_CMD |
| Scheduling.TableInOrder | erts/example/mini_beam_esp32/src/mb_scheduler.c:12-33 | in every reachable state the used slots are a prefix of length count, slot j holds PID j + 1, and HALTED agrees with halted |
| Scheduling.ReceivedMailIsValid | erts/example/mini_beam_esp32/src/mb_vm.c:348-367 | in every reachable state RECV_CMD delivers the oldest queued command or blocks; its branch for invalid commands is dead |
| Messages.ReceiveTags | erts/example/mini_beam_esp32/src/mb_vm.c:348-358 | RECV_CMD, executed with mail, writes the tagged fields of the oldest command |
| Messages.HistoryExtends | erts/example/mini_beam_esp32/src/mb_scheduler.c:12-83 | a history adds events to the trace and takes none back |
| Messages.NextInLine | erts/example/mini_beam_esp32/src/mb_vm.c:100-125 | the command accepted after n others is first in the ring once n others were received |
| Messages.SmallintsArriveIntact | erts/example/mini_beam_esp32/src/mb_vm.c:348-431 | when a SEND of five smallints is accepted, then, anywhere later in any history, the RECV_CMD that the receiver executes with all earlier mail taken writes the very words of the sender's registers |
| Progress.Fairness | erts/example/mini_beam_esp32/src/mb_scheduler.c:67-76 | until a READY process is dispatched it stays READY, and each tick brings it nearer: at most 7 ticks and 7 * 64 instructions of others go by, even if those fault |
| Progress.DispatchedWithinEightTicks | erts/example/mini_beam_esp32/src/mb_scheduler.c:61-83 | a READY process is dispatched within 8 ticks, whatever sends and spawns happen in between |
| Progress.ReceivedWithinEightTicks | erts/example/mini_beam_esp32/src/mb_scheduler.c:61-83 | the first message of a process that stands READY at a RECV_CMD is received within 8 ticks |
| Progress.BoundedDelivery | erts/example/mini_beam_esp32/src/mb_scheduler.c:43-46 | a message accepted for a WAITING process, by whatever action, is received by it within 8 further ticks |
| Progress.RestingStays | erts/example/mini_beam_esp32/src/mb_scheduler.c:50-59 | a HALTED process, or a SLEEPING one before its deadline, is never dispatched and only its mailbox grows |
| Progress.SleeperWakes | erts/example/mini_beam_esp32/src/mb_scheduler.c:50-59 | the first tick at or after the deadline makes a sleeper READY |
| Progress.TickIsolates | erts/example/mini_beam_esp32/src/mb_vm.c:385-432 | a tick changes a process it does not run only by waking it and by appending the accepted commands: everything else about it stays |
| Scheduler.Scheduler.constructor | erts/example/mini_beam_esp32/src/mb_scheduler.c:8-10 | the table starts with eight free slots that own separate memory |
| Scheduler.Scheduler.SpawnProgram | erts/example/mini_beam_esp32/src/mb_scheduler.c:12-23 | in place: the slot loop spawns into the first free slot |
| Scheduler.Scheduler.FindProc | erts/example/mini_beam_esp32/src/mb_scheduler.c:25-33 | the slot of a PID, or none |
| Scheduler.Scheduler.Send | erts/example/mini_beam_esp32/src/mb_scheduler.c:35-48 | in place: a send |
| Scheduler.Scheduler.Step | erts/example/mini_beam_esp32/src/mb_vm.c:385-432 | in place: one instruction of a slot, SEND to another slot or to itself included, leaves exactly the table of the step on values |
| Scheduler.Scheduler.RunLoop | erts/example/mini_beam_esp32/src/mb_vm.c:680-694 | in place: the run loop leaves the table and status of the loop on values |
| Scheduler.Scheduler.WakeSleepers | erts/example/mini_beam_esp32/src/mb_scheduler.c:50-59 | in place: the loop wakes exactly the due sleepers |
| Scheduler.Scheduler.FindReady | erts/example/mini_beam_esp32/src/mb_scheduler.c:67-76 | the scan finds the first READY slot from current on, or none |
| Scheduler.Scheduler.Tick | erts/example/mini_beam_esp32/src/mb_scheduler.c:61-83 | in place: a tick leaves exactly the table and status of the tick on values |
| FlowCompiler.I32RoundTrip | erts/example/mini_beam_esp32/tools/flow_compile.escript:132-134 | the machine's fetch undoes the compiler's encoding modulo 2^32, and exactly on 32-bit integers |
| FlowCompiler.I32Weighs | erts/example/mini_beam_esp32/tools/flow_compile.escript:132-134 | the four bytes, least significant first, weigh the integer modulo 2^32, negative integers included |
| FlowCompiler.ConstLoads | erts/example/mini_beam_esp32/tools/flow_compile.escript:130-134 | CONST_I32 loads a compiled constant as its value in signed 28 bits, exact iff it is a smallint |
| FlowCompiler.SensorBytes | erts/example/mini_beam_esp32/tools/flow_compile.escript:95-118 | a compiled sensor byte for byte: bus, address, register, actuator PID, command 2, channel, poll interval and 0 are loaded into r0 to r6 and r8, then the loop, with a pause iff the interval is not 0, and a jump back to 48 |
| FlowProcesses.SensorDecodes | erts/example/mini_beam_esp32/tools/flow_compile.escript:95-118 | every compiled sensor decodes, at every instruction boundary, to the instruction listed there with its operands |
| FlowProcesses.ActuatorDecodes | erts/example/mini_beam_esp32/tools/flow_compile.escript:120-126 | so does the compiled actuator |
| FlowProcesses.SensorStep | erts/example/mini_beam_esp32/tools/flow_compile.escript:107-116 | an instruction of a sensor, SEND aside, succeeds, stays on a boundary and keeps bus, address and register, whatever the hardware answers |
| FlowProcesses.SensorSends | erts/example/mini_beam_esp32/tools/flow_compile.escript:110 | SEND offers the last reading as a duty for the flow's channel, to the PID in r3: the actuator's, or one of four statuses left there by an earlier SEND |
| FlowProcesses.ActuatorReceives | erts/example/mini_beam_esp32/tools/flow_compile.escript:120-126 | RECV_CMD of the actuator takes the oldest command into its registers, or waits without changing anything else |
| FlowProcesses.ActuatorCalls | erts/example/mini_beam_esp32/tools/flow_compile.escript:120-126 | the actuator's PWM call succeeds iff the channel in r1 and the duty in r2 are in range, returns BAD_ARGUMENT otherwise, and stands at the jump either way, whatever the hardware answers |
| FlowRuns.FlowStep | erts/example/mini_beam_esp32/tools/flow_compile.escript:85-126 | every instruction of a READY process of a running flow keeps the flow invariant, and succeeds unless it is the actuator's PWM call on a command that the call cannot bear |
| FlowRuns.SendIsAccepted | erts/example/mini_beam_esp32/tools/flow_compile.escript:110 | a sensor's SEND is accepted iff r3 names the actuator, the reading is a duty in range and the mailbox has room, which it has unless commands came from outside; accepted or refused, what was offered is the reading for the first flow's channel |
| FlowRuns.MailboxStaysSmall | erts/example/mini_beam_esp32/src/mb_vm.c:107-109 | the actuator's mailbox never holds more commands than there are sensors and commands accepted from outside |
| FlowHistories.FlowTick | erts/example/mini_beam_esp32/src/mb_scheduler.c:61-83 | every tick of a running flow keeps the flow invariant, and returns OK or IDLE iff the actuator's PWM calls made in it are all on bearable commands; otherwise BAD_ARGUMENT |
| FlowHistories.FlowFaultsExactly | erts/example/mini_beam_esp32/zephyr_app/src/main.c:781-789 | a valid flow with 1 to 7 sensors, compiled, spawned in order and run for any number of ticks with any clock and hardware while anybody sends any commands to anybody: all ticks return OK or IDLE iff every command on which the actuator made its PWM call is one that the call bears, channel and duty in range |
| FlowHistories.FlowNeverFaults | erts/example/mini_beam_esp32/zephyr_app/src/main.c:781-789 | so no tick faults if every valid command that is sent to the actuator from outside is bearable, which a sender can check; with ticks alone none ever does |
| FlowCalls.UnbearableFaults | erts/example/mini_beam_esp32/tools/flow_compile.escript:120-126 | and any valid command that is not bearable, sent to the actuator at power-up, makes one of the next eight ticks fault, whatever the flow, the clock and the hardware |
| FlowCalls.BearableIsNotDuty | erts/example/mini_beam_esp32/src/mb_vm.c:76-97 | a valid command can be bearable without being a duty, as CMD_NONE with a channel and a duty is, and one for GPIO pin 39 is valid and not bearable |
| FlowDelivery.FirstReadingIsDelivered | erts/example/mini_beam_esp32/tools/flow_compile.escript:95-118 | from power-up every sensor is run within eight ticks, and what the driver answers to its first read is the first reading it offers; of all the readings it offers at most one gets across, as a duty for the flow's channel: the first if that is in range, or, with seven sensors, the first that is in range |
| FlowCalls.AllCalled | erts/example/mini_beam_esp32/tools/flow_compile.escript:120-126 | without commands from outside, eight ticks at most separate the acceptance of a command from the actuator's PWM call on it |
| FlowCalls.CallsInOrder | erts/example/mini_beam_esp32/tools/flow_compile.escript:120-126 | at all times the actuator made its PWM calls on a prefix of the commands accepted for it, in order: on all of them when it stands at RECV_CMD without mail |
| FlowCalls.FirstReadingIsDriven | erts/example/mini_beam_esp32/tools/flow_compile.escript:95-126 | a first reading in range reaches the driver: within sixteen ticks of power-up the actuator makes its PWM call with the first flow's channel and that reading |
| FlowHistories.FlowDelivers | erts/example/mini_beam_esp32/tools/flow_compile.escript:48-134 | at all times: sensors keep their declared bus, address and register once set, each had at most one command accepted in its life, and the actuator's mailbox holds only duties 0 to 1000 for the first flow's channel and commands from outside, no more than there are sensors and commands from outside |
| FlowPauses.SensorRegisters | erts/example/mini_beam_esp32/tools/flow_compile.escript:95-106 | in every state of a running flow a sensor in its loop shows its bus, address and register, command 2, the first flow's channel, and its poll interval in signed 28 bits |
| FlowPauses.PauseIsSleep | erts/example/mini_beam_esp32/tools/flow_compile.escript:111-115 | a pausing sensor's deadline is the clock plus its poll interval iff the interval is keepable and the clock does not wrap before |
| FlowPauses.PollPauses | erts/example/mini_beam_esp32/tools/flow_compile.escript:111-115 | then no tick before that time dispatches the sensor, so it executes nothing and reads no device, whatever is sent to whomever, and the flow goes on as it should |
| FlowPauses.PollResumes | erts/example/mini_beam_esp32/tools/flow_compile.escript:111-115 | and the first tick at or after it runs the sensor or leaves it READY; within eight more ticks it has been dispatched |
| FlowPauses.LongIntervalIsNoPause | erts/example/mini_beam_esp32/tools/flow_compile.escript:56-60 | a valid interval of 2^27 ms is no pause once the clock has passed 2^27: a tick at the very same time finds the sensor due |
| FlowPauses.PollYields | erts/example/mini_beam_esp32/tools/flow_compile.escript:112 | with interval 0 a sensor gives up the rest of its slice and stays READY |
| FlowPauses.ValidSensorExactly | erts/example/mini_beam_esp32/tools/flow_compile.escript:56-61 | validation accepts a sensor iff its interval is not negative and the driver call compiled for it does not fault |
| FlowPauses.ValidActuatorExactly | erts/example/mini_beam_esp32/tools/flow_compile.escript:63-65 | and an actuator iff the PWM call takes its channel |
| FlowPauses.InvalidFlowExactly | erts/example/mini_beam_esp32/tools/flow_compile.escript:48-77 | everything that makes a flow invalid: a sensor, actuator, route or policy value out of the ranges given in numbers, or a route without its sensor or actuator; nothing else does |
| FlowHistories.EightSensorsLeaveNoActuator | erts/example/mini_beam_esp32/zephyr_app/src/main.c:782-789 | with 8 or more sensors spawning fails and the actuator is not in the table |

## Left out

- TableSafety.TableIsTermSafe: assumes `CollectSafe` at every collection, which bytecode that builds empty tuples, or tuples of pointers on a full heap, can violate; `TermSafetyNeedsTheGuard` is a history for which it is then false. `ListProgramsAreSafe` needs no assumption.
- Progress.BoundedDelivery: like the other theorems on fairness and mail, it is about histories without an access outside memory; `TableSafety` says which have none.
- Delays.SleepLasts: the deadline is the sum modulo 2^32 and ticks are compared with it as the code does; when the sum wraps, that is another time than the interval says, and `FlowPauses.PauseIsSleep` excludes it for sensors.
- FlowHistories.FlowFaultsExactly: no further programs are spawned beside the flow; sends from outside are all admitted.
- FlowDelivery.FirstReadingIsDelivered: about histories of ticks; with commands from outside the mailbox can be full when a sensor sends, which `SendIsAccepted` states for one SEND.
- Projection.TableRefines: the run of a slot is given by existence; its deliveries and the number of its instructions are those of the history, the answers of the hardware in it are not traced back to the tick.
- EmptyTuples.RoomyIsExact: ranges over root lists of any length; for the 16 registers alone a cramped heap need not go wrong, and when it does is left open.
- The heap capacity is any number up to 0xDEAD000 words instead of 128; longer spaces could hold an object at the offset the forwarding marker spells.
- `Process.Step` decodes an instruction completely before it executes it; the operands of MAKE_TUPLE and CALL_BIF are therefore read after the last fetch, which no state in between can tell apart.
- Shifts of negative integers and the negation of -2^31 have their two's complement meaning.
- Running without a scheduler (a null scheduler argument) and the `mb_vm_t` wrapper in `src/mb_vm.c:702-753`: field copying around the same step, with a heap that is never initialised.
- The drivers in `src/mb_hal_*.c`, clocks and delays: inputs of the model.
- Reading the flow file and printing the C header: text formatting.
- `zephyr_app` and `espidf_app` apart from the order in which they spawn the flow's programs, the host demo programs, the shell and awk scripts, and the board files.
