# opendbg kernel driver: model and proofs

opendbg is a Windows debugger. Its kernel driver intercepts a few system services, tells a debugger
process what the debuggee does, and waits for the debugger's answer. This project models the parts of
the driver whose correctness is subtle and proves what they are for:

* **The debug-event channel** (`channel.c`). Debuggee threads send an event and wait for the reply; a
  debugger thread receives the event and sends the reply. A four-valued word changed by
  compare-and-swap, four manual-reset events, an owner word and one shared buffer do this. `Channel`
  is a step machine with one step for every wait, compare-and-swap, event change, copy and plain store,
  over any number of threads. `ChannelInvariant` is the inductive invariant, `Rendezvous` the refinement
  of an atomic request/reply server, `ChannelReturns` and `ChannelTheorems` the guarantees over whole
  runs, and `BrokenCalls` says what calls return when waits are aborted or the channel is released.
  `ChannelObject` is the same machine as an object updated in place. `StaleDelivery` shows why message
  contents are guaranteed for one receiving thread only, `MissedRelease` how a release can go unnoticed.
* **The length decoder** (`ldasm.c`). `OpcodeTable` is the packed table; `OpcodeMap` the processor manual's
  opcode map, written without the table, with the proof that the two agree and where they do not; `Ldasm`
  the decoder, as a function and as the loop that computes it; `InstructionGrammar` the IA-32 instruction
  format over that map, with the proof that the decoder measures exactly these instructions.
* **Code hooking** (`code_hook.c`). `Memory` is 32-bit byte memory; `Trampoline` is the code that
  `hook_code` builds and the proof that it behaves like the code it was built from; `BranchBytes` says what
  relative branches do and become byte for byte; `CodeHook` patches memory in place; `HotPatchBytes` says
  which procedures it takes and what it writes, on single bytes; `HookChain` and `HookTheorems` follow any number of hooks on any number of procedures.
  `Machines` executes instructions one after the other, `Jumps` are the two jumps that hooks plant,
  `Publication` lets threads run through a procedure while it is being hot patched, `PublicationSafety`
  says which runs are safe meanwhile, `CallThrough` runs threads through the old pointer of the first hook,
  and `ReturnAddresses` does so when the moved instructions call. `HookExample` meets all
  the premises with a procedure of NOPs.
* **The all-processor stop** (`global_lock` and its companions in `code_hook.c`). `Barrier` is a step
  machine over any number of processors and rounds and patches of any number of writes, `BarrierObject` its
  memory updated in place.
* **Debug sessions** (`dbg_item.c`, `debug.c`). `Sessions` lets any number of the driver's routines find,
  use, delete and drop reference-counted sessions at the same time, `SessionRoutines` says on which sessions
  each of them acts and how far it goes; `Registry` is the session list as an object under serialized calls,
  and keeps the simpler book of `SessionBook`. `SecondDeletion` and `DoubleAttach` show where the code
  relies on an assumption.
* **Recursive registry-key deletion** (`regio.c`). `KeyTree` and `KeySurvivors`.

`dafny verify dfyconfig.toml` checks everything.

## Conventions and assumptions

* Threads, processors, processes and routines are natural numbers. A routine that calls another one
  (the terminate-thread hook calls `dbg_process_terminated`) is two routines that run at the same time;
  every order in which their steps can come is covered.
* `released`, `waiters`, event and list operations are single steps; `dbg_find_item` is one step, because
  it runs under the spin lock. Each session is deleted at most once; `SecondDeletion` shows that the code
  does not ensure this, and `Sessions.FirstDeletionIffActive` says which test tells.
* The messages, replies and instruction effects are uninterpreted. An instruction other than a relative
  branch is assumed to do the same at another address, except that a call of any kind pushes the address
  behind it.
* Patched regions and buffers do not wrap around the address space and do not overlap. The first
  instructions of a hooked procedure can be decoded without running past the end of memory.
* The buffers that `mem_alloc` returns are arguments. The methods of `CodeHook.Patcher` write past the
  64-byte buffer where the source does; `Trampoline.TrampolineFits` says for which code that cannot
  happen, and the runs of `HookChain` are those in which it does not.
* Writes of 16 and 32 bits are atomic.
* `Publication.RunsOldThenNew` is about threads that are not in the padding of the procedure, nor in its
  first two bytes other than at the start, while it is hot patched.

Where the code differs from what it seems meant to do, the model follows the code:

* A sender that loses its compare-and-swap leaves with 0: `continue` inside `do ... while (0)` ends the
  loop (src/kernel/sys/channel.c:83-85).
* The packed table misses the ModR/M byte of the opcodes 0F 19 to 0F 1F, 0F 78, 0F 79, 0F B8, 0F B9 and
  0F FF, so these instructions are measured up to their opcode only, among them the long NOP 0F 1F;
  three-byte opcodes, 0F 38 and 0F 3A, end for the decoder behind the second byte
  (src/kernel/sys/ldasm.c:13-20). The exact condition is `InstructionGrammar.ManualSizes`.
* A receiver that has just taken a message clears `recv_event` without looking at `released` again, so a
  release in between does not wake its next call (`MissedRelease`).
* `dbg_attach_call` searches the list and adds to it under two holds of its lock, so two attaches to one
  process that overlap end in two sessions for it (`DoubleAttach`).
* With two receivers a receiver can be handed the previous message (`StaleDelivery`).
* With one processor nobody frees the DPC block (src/kernel/sys/code_hook.c:45-47).
* `hook_code` looks at the flags of the first byte, so a relative branch behind a prefix is moved without
  correcting its displacement, and a short branch behind a prefix is accepted
  (src/kernel/sys/code_hook.c:217-228). `hot_patch` moves a two-byte short branch unchanged. The exact
  conditions are `Trampoline.MovedRuns` and `HookTheorems.FirstMovedRuns`.
* Code that runs into the padding of a procedure, by a branch or as the operand of an instruction in front
  of it, meets a half-written jump during a hot patch: exactly such code
  (`PublicationSafety.PublicationIsSafe`, with three failing inputs beside it).
* The recursive deletion stops enumerating at a name too long for its buffer
  (src/kernel/sys/regio.c:92-103).

## Model

| member | source | states |
|---|---|---|
| ChannelInvariant.StepKeepsInv | src/kernel/sys/channel.c:63-253 | What threads may rely on at each statement is inductive in three kinds of run: any; without aborts and release; the same with one receiving thread. |
| ChannelInvariant.InvInRuns | src/kernel/sys/channel.c:30-253 | The invariant holds in every state of every run from a fresh channel. |
| Rendezvous.StepRefines | src/kernel/sys/channel.c:63-229 | Every statement is invisible or one move of an atomic server that submits, delivers, answers and returns, showing the bytes it really copies. |
| Rendezvous.RunRefinesServer | src/kernel/sys/channel.c:63-229 | With one receiving thread, no aborted wait and no release, every run is a run of that server. |
| Rendezvous.MessagesAndRepliesMatch | src/kernel/sys/channel.c:90-111 | Messages copied out are exactly those of the winning senders in compare-and-swap order, and each winner copies out the reply to its own message. |
| ChannelTheorems.SendersExcludeEachOther | src/kernel/sys/channel.c:83-118 | In every run the word differs from CH_NULL exactly while one sender is between its compare-and-swap and its store of CH_NULL; two are never there. |
| ChannelTheorems.SendEventWillBeSet | src/kernel/sys/channel.c:87-123 | In every run send_event is clear only while some sender is between its clear and its final set. |
| ChannelTheorems.ReceiversExcludeEachOther | src/kernel/sys/channel.c:151-159 | Any number of receivers, no aborts, no release: at most one is between its winning compare-and-swap and its reply, and the owner compare-and-swap never fails. |
| ChannelTheorems.ReplierIsReceiver | src/kernel/sys/channel.c:201-208 | CH_RECVED becomes CH_REPLAYED only by the thread that took the message, and the word was CH_RECVED all the time between. |
| ChannelTheorems.NoLostWakeUps | src/kernel/sys/channel.c:93-114 | One receiver, no aborts, no release: the event the next party waits for is set from CH_SENT, CH_RECVED and CH_REPLAYED on until it is consumed. |
| ChannelTheorems.SomebodyCanMove | src/kernel/sys/channel.c:70-224 | While a transaction is open, the thread that holds it can move or the receiver can, unless the receiver is idle, waits for a turn to send, is in the wrong call, or is itself that holder and waits for its own reply. |
| ChannelTheorems.SenderReturns | src/kernel/sys/channel.c:63-130 | channel_send_recv returns 1 exactly when it won, and then it was its own message that was delivered and its own reply that it got. |
| ChannelTheorems.ReceiverReturns | src/kernel/sys/channel.c:132-180 | channel_recv returns 1 with the message of the winner of its turn. |
| ChannelTheorems.WaitersCountThreadsInside | src/kernel/sys/channel.c:255-279 | In every run `waiters` is the number of threads inside, so channel_free's loop ends only when nobody is. |
| ChannelTheorems.ReplierReturns | src/kernel/sys/channel.c:182-229 | One receiver, no aborts, no release: channel_send returns 1, its bytes are the reply recorded for its transaction, and the message of that transaction is the one the same thread copied out. |
| BrokenCalls.ChecksSeeBreakOff | src/kernel/sys/channel.c:78-106 | In every run: at each of the four tests behind a wait, a call leaves with 0, or a sender notes failure, exactly if the wait was aborted or some thread has begun a release. |
| BrokenCalls.WokenByItsEvent | src/kernel/sys/channel.c:73-102 | Whoever makes such a test was woken by its own event, or its wait was aborted. |
| BrokenCalls.CallsReturn | src/kernel/sys/channel.c:63-229 | In every run: a call returns 0 exactly because it was broken off or, for a sender, because it lost the race for the word; a sender that won has its own offer and outcome on record, and a receiver or replier that returns 1 its message or reply. |
| BrokenCalls.ReleaseWakes | src/kernel/sys/channel.c:232-253 | Once a thread has gone through channel_release, every waiting thread can move, unless some thread has cleared an event since that release began. |
| MissedRelease.ReleaseCanBeMissed | src/kernel/sys/channel.c:161-162 | A run in which a receiver clears recv_event behind a whole release and then waits on the released channel. |
| StaleDelivery.TwoReceiversCanBeHandedAStaleMessage | src/kernel/sys/channel.c:141-167 | For any two receivers and any two senders, a run without aborts and release in which the second turn delivers the first turn's message. |
| StaleDelivery.ContentsMatchIff | src/kernel/sys/channel.c:63-229 | Messages and replies match in every run without aborts and release exactly if at most one thread receives. |
| ChannelObject.ChannelMemory.Execute | src/kernel/sys/channel.c:63-253 | The object after a thread's next statement is the machine's next state. |
| ChannelObject.ChannelMemory.Interleave | src/kernel/sys/channel.c:63-253 | Whatever the schedule, the object goes through a run of the machine. |
| OpcodeMap.FlagsByTheManual | src/kernel/sys/ldasm.c:3-54 | For every opcode, which flags the table gives it: ModR/M, fixed immediate bytes, operand-sized immediate, prefix, rel32 and rel8 are those of the manual's opcode map, but for the ModR/M byte of the missed opcodes. |
| OpcodeMap.MissedModRM | src/kernel/sys/ldasm.c:13-20 | Table and manual disagree on a ModR/M byte exactly at the missed opcodes. |
| OpcodeMap.FlagFacts | src/kernel/sys/ldasm.c:3-54 | Only twelve flag bytes occur in the table, and no opcode after 0F combines ModR/M and a four-byte immediate. |
| OpcodeMap.PrefixesAreFlagged | src/kernel/sys/ldasm.c:3-42 | The table marks exactly the processor manual's eleven prefix bytes. |
| Ldasm.SizeOfCode | src/kernel/sys/ldasm.c:56-159 | The decoder's loop and counters compute SizeOf on every byte string. |
| Ldasm.MeasureBody | src/kernel/sys/ldasm.c:76-158 | The part from the opcode on adds up the grammar's pieces. |
| InstructionGrammar.SizeIsExact | src/kernel/sys/ldasm.c:56-159 | For every well-formed instruction, whatever follows it, the decoder returns its encoded length and its number of prefixes. |
| InstructionGrammar.ManualSizes | src/kernel/sys/ldasm.c:56-159 | Of the manual's instructions with one or two opcode bytes the decoder measures exactly those right whose ModR/M byte the table does not miss; the others end for it behind the opcode. |
| InstructionGrammar.NothingMore | src/kernel/sys/ldasm.c:56-159 | Behind any prefixes, the missed opcodes and the escapes to three-byte opcodes are measured as the two bytes they begin with. |
| InstructionGrammar.ParsedIsWellFormed | src/kernel/sys/ldasm.c:56-159 | Whatever the decoder measures is the encoding of a well-formed instruction. |
| InstructionGrammar.DecodingIsLocal | src/kernel/sys/ldasm.c:56-159 | Two streams that agree on the decoded bytes decode alike. |
| InstructionGrammar.EncodingIsUnambiguous | src/kernel/sys/ldasm.c:56-159 | No two instructions share an encoding and none is the beginning of another. |
| InstructionGrammar.SizeIsBounded | src/kernel/sys/ldasm.c:66-158 | An instruction takes at least one byte and at most eleven besides its prefixes. |
| Trampoline.MovedRuns | src/kernel/sys/code_hook.c:222-235 | A moved instruction has the same effect, branch target modulo 2^32 and moved return address (of any kind of call) exactly if it is no prefixed relative branch, but for branches cut to 16 bits that move by a multiple of 64K. |
| BranchBytes.NearBranchRuns | src/kernel/sys/code_hook.c:228-235 | E8, E9 and 0F 80 to 0F 8F with a four-byte displacement go that far from the address behind them; only E8 pushes that address. |
| BranchBytes.NearBranchMoves | src/kernel/sys/code_hook.c:228-235 | Moved, each of them keeps its opcode and has the distance added to its displacement modulo 2^32. |
| BranchBytes.ShortBranchRuns | src/kernel/sys/code_hook.c:222-226 | 70 to 7F, E0 to E3 and EB go at most 128 bytes back or 127 on, and are refused. |
| BranchBytes.CutJumpRuns | src/kernel/sys/code_hook.c:217-235 | A jump behind an operand-size prefix is cut to sixteen bits and moved unchanged. |
| Trampoline.PrefixedJumpGoesAstray | src/kernel/sys/code_hook.c:217-235 | A prefixed near jump is accepted and moved unchanged, and lands as far from its target as it was moved. |
| Trampoline.CopiedRuns | src/kernel/sys/code_hook.c:132-135 | The same for an instruction that is copied unchanged: exactly if it is no relative branch. |
| Trampoline.TrampolineRuns | src/kernel/sys/code_hook.c:212-245 | Running the trampoline leaves it as the original code was left, or ends up behind the moved code. |
| Trampoline.BuildOutcome | src/kernel/sys/code_hook.c:212-243 | Code is refused exactly if an instruction that begins in its first five bytes is an unprefixed short branch; otherwise exactly the instructions that begin there are moved. |
| Trampoline.TrampolineBoundaries | src/kernel/sys/code_hook.c:212-243 | The trampoline has the source's instruction boundaries and then those of one five-byte jump. |
| Trampoline.TrampolineFits | src/kernel/sys/code_hook.c:207-243 | With at most k prefixes an instruction, trampoline and closing jump take at most 20 + k bytes: 64 for 44, 24 for 4. |
| Trampoline.BuildIsLocal | src/kernel/sys/code_hook.c:214-243 | The trampoline depends on nothing but the moved code. |
| Trampoline.RoomForBranch | src/kernel/sys/code_hook.c:228-235 | The flags say rel32 only where a four-byte displacement follows the opcode, so the correction stays inside the moved instruction. |
| HotPatchBytes.HotPatchTakes | src/kernel/sys/code_hook.c:108-187 | hot_patch succeeds exactly behind five 90 or five CC bytes before 8B FF or a two-byte instruction, and otherwise at EB F9 behind E9; and the kind, size and old pointer of each. |
| HotPatchBytes.HotPatchWrites | src/kernel/sys/code_hook.c:119-175 | Which bytes it leaves in padding, procedure and buffer; every other byte stays. |
| HotPatchBytes.SetHookTakes | src/kernel/sys/code_hook.c:267-288 | set_hook hot patches whatever can be hot patched and splices the rest, refusing exactly where a short branch is in the way. |
| CodeHook.Patcher.HotPatch | src/kernel/sys/code_hook.c:95-187 | New memory, old-procedure pointer and descriptor for padded, already patched and other procedures, and for null arguments; and exactly which memory and pointer there are after each single write. |
| CodeHook.Patcher.MoveNext | src/kernel/sys/code_hook.c:216-239 | One turn moves one whole instruction, corrected if it is a plain rel32 branch, and leaves the code still to be moved unchanged. |
| CodeHook.Patcher.BuildTrampoline | src/kernel/sys/code_hook.c:212-243 | The loop writes exactly the trampoline into the buffer, or stops at a short branch with nothing but the buffer changed. |
| CodeHook.Patcher.HookCode | src/kernel/sys/code_hook.c:189-265 | Trampoline in the buffer, jump over the procedure, old-procedure pointer and descriptor; or a refusal that leaves the procedure alone. |
| CodeHook.Patcher.SetHook | src/kernel/sys/code_hook.c:267-288 | The hot patch is tried first, then the splice; a successful call appends its descriptor to the list. |
| Publication.OldUntilFinal | src/kernel/sys/code_hook.c:109-172 | Of these moments only the last changes anything but the padding and the buffer, and it is the finished patch with the final old-procedure pointer. |
| Publication.RunsOldThenNew | src/kernel/sys/code_hook.c:109-172 | A thread anywhere in the old code, with the writes falling between its instructions in any way: it does what it would have done, until at the gate it finds the patch and the pointer final and reaches the new hook with its data unchanged; asked is only that the instructions it fetches until then are at the gate or clear of the patch. |
| PublicationSafety.MomentIsOldOrFinal | src/kernel/sys/code_hook.c:109-172 | At every moment, the patch and the pointer are final and entering reaches the new hook, or every run of any length that fetches nothing from padding and buffer is the same as before. |
| PublicationSafety.AddressIsSafeIff | src/kernel/sys/code_hook.c:108-150 | The instruction at an address is the same at all moments of all patches but the last exactly if it shares no byte with the padding. |
| PublicationSafety.PublicationIsSafe | src/kernel/sys/code_hook.c:109-172 | Any number of instructions from any place, none from the buffer, are the same at all moments of all patches but the last exactly if none is fetched from the padding. |
| PublicationSafety.ConditionOnFirstBranch | src/kernel/sys/code_hook.c:108-150 | The first two instructions of a padded procedure that begins with a taken branch are the same at all moments of all patches but the last exactly if the instruction at the branch's target shares no byte with the padding; displacements F9 to FD always lead to one that does. |
| PublicationSafety.ReturnInPadding | src/kernel/sys/code_hook.c:147-150 | A failing input: EB FA behind NOPs leads to NOP before, and to RET between the writes. |
| PublicationSafety.OperandInPadding | src/kernel/sys/code_hook.c:147-150 | A failing input: EB F8 with 04 in front of the padding leads to an ADD whose operand is the first padding byte. |
| PublicationSafety.SecondBranchIntoPadding | src/kernel/sys/code_hook.c:112-150 | A failing input: 8B FF EB F7 reaches the padding with its second instruction. |
| Publication.FinalArrives | src/kernel/sys/code_hook.c:144-172 | After a hot patch or double hot patch, executing from the gate reaches the new hook in two jumps or one. |
| HookChain.FirstHook | src/kernel/sys/code_hook.c:95-265 | The first hook of a procedure, of whichever kind, starts a chain whose old pointer leads to the original code. |
| HookChain.SplicedAgain | src/kernel/sys/code_hook.c:189-265 | Hooking a spliced procedure again moves the jump to the newest hook, retargeted, into the new trampoline. |
| HookChain.RedirectedAgain | src/kernel/sys/code_hook.c:162-184 | Hooking a hot-patched procedure again makes the newest hook the old procedure of the next. |
| HookChain.StepKeepsInv | src/kernel/sys/code_hook.c:267-288 | Every call of set_hook keeps all chains of all procedures, their code, and all memory that belongs neither to them nor to the allocator. |
| HookTheorems.HooksAreLifo | src/kernel/sys/code_hook.c:95-288 | After any calls: entering a procedure reaches its newest hook, hook k's old pointer leads to hook k-1, hook 1's to the original code. |
| HookTheorems.OthersUntouched | src/kernel/sys/code_hook.c:95-288 | A call leaves the hooks, bytes and buffers of every other procedure as they are; its own procedure gets one hook more exactly if the call succeeds. |
| HookTheorems.FirstSplicedRuns | src/kernel/sys/code_hook.c:212-245 | Hook 1's old pointer of a spliced procedure runs the original first instructions and goes on behind them. |
| HookExample.NopsCanBeHooked | src/kernel/sys/code_hook.c:267-288 | A run of one call that splices a procedure of NOPs, so the premises of the chain theorems can be met. |
| CallThrough.CallsThrough | src/kernel/sys/code_hook.c:212-245 | Every number of instructions that the original executes from its entry is matched from the trampoline, with the same data at the same place, if the run leaves the moved code other than by a call and meets none of the patched bytes. |
| CallThrough.MovedFirst | src/kernel/sys/code_hook.c:131-138 | The same for a hot-patched procedure whose first instruction, no relative branch, was moved into a buffer. |
| CallThrough.SkippedFirst | src/kernel/sys/code_hook.c:112-114 | The same for a procedure that begins with MOV EDI, EDI, which the old pointer skips. |
| CallThrough.ForeignFirst | src/kernel/sys/code_hook.c:162-167 | The same for a procedure that was already patched: the old pointer is where its jumps led. |
| CallThrough.OldPointerRunsOriginal | src/kernel/sys/code_hook.c:95-265 | Hook 1's old pointer, whatever the kind of hook, in any later memory in which its chain is intact: n instructions of the original from its entry are matched, for every n. |
| CallThrough.OwnByteKept | src/kernel/sys/code_hook.c:95-288 | After any calls, a byte that no hook has replaced and the allocator does not hand out is what it was before any hook. |
| CallThrough.OldPointerInEveryWorld | src/kernel/sys/code_hook.c:95-288 | After any calls on any procedures, a first hook's old pointer does n instructions of what the procedure did before any hook, given only that the original run fetches such bytes beyond the moved code. |
| ReturnAddresses.TwinRuns | src/kernel/sys/code_hook.c:212-245 | Through calls out of moved code and returns into it: every number of instructions of the original is matched, at corresponding places and with data related up to return addresses. |
| ReturnAddresses.TrampolineIsCopy | src/kernel/sys/code_hook.c:212-245 | A trampoline is such a copy of the code it was built from. |
| ReturnAddresses.OldPointerThroughCalls | src/kernel/sys/code_hook.c:95-265 | Hook 1's old pointer when the moved instructions may call: every number of instructions of the original is matched up to return addresses. |
| ReturnAddresses.StackRespects | src/kernel/sys/code_hook.c:212-245 | What is asked of the machine holds of one that pushes return addresses and pops them to return. |
| HookTheorems.FirstMovedRuns | src/kernel/sys/code_hook.c:131-138 | The moved first instruction of a hot-patched procedure and the jump behind it do what the original did, exactly if the instruction is no relative branch. |
| Jumps.ShortJumpGoesAstray | src/kernel/sys/code_hook.c:131-135 | The copy of a short jump at the start of a procedure lands elsewhere. |
| Jumps.JumpTargetRuns | inc/defines.h:154 | The jumps that hooks plant are decoded and executed as transfers to their targets. |
| Publication.EnteringRuns | src/kernel/sys/code_hook.c:146-150 | Entering a hooked procedure executes the planted jumps and nothing else before it arrives at the hook. |
| Barrier.StepKeepsInv | src/kernel/sys/code_hook.c:35-93 | Each counter is the number of processors that still owe its decrement, and what follows for the flags and the DPC block, is inductive. |
| Barrier.PatchRunsAlone | src/kernel/sys/code_hook.c:35-93 | From the return of global_lock until `locked` is cleared, every other processor spins in global_lock_proc with interrupts off. |
| Barrier.WritesAreMadeAlone | src/kernel/sys/code_hook.c:249-255 | Every single write of the patch is made while all others spin like that. |
| Barrier.UnlockLeavesNothingBehind | src/kernel/sys/code_hook.c:45-92 | When global_unlock returns, the whole patch is written, interrupts are on again, every DPC routine has passed its last decrement, counters are zero, and the block was freed once, exactly with two or more processors. |
| Barrier.CountersAndBlockStaySound | src/kernel/sys/code_hook.c:35-93 | No counter goes below zero, the block is never freed twice, and only by the routine that dropped the last reference. |
| Barrier.SpinningIsNotDeadlock | src/kernel/sys/code_hook.c:75-89 | While a spin loop waits, some processor that owes the decrement can move. |
| BarrierObject.BarrierMemory.Execute | src/kernel/sys/code_hook.c:35-93 | The counters after a processor's next statement are the machine's next state. |
| BarrierObject.BarrierMemory.Interleave | src/kernel/sys/code_hook.c:35-93 | Whatever the schedule, the memory goes through a run of the machine. |
| DbgItem.Find | src/kernel/sys/dbg_item.c:54-88 | A listed, active item that matches the optional arguments, or none exists. |
| DbgItem.FindFrom | src/kernel/sys/dbg_item.c:65-80 | The first such item from a place in the list on. |
| Sessions.StepKeepsInv | src/kernel/sys/dbg_item.c:29-116 | Reference counts, list references and what a routine knows of its item are inductive over every step of every routine. |
| Sessions.CountIsHandles | src/kernel/sys/dbg_item.c:40-92 | A count is the number of handles held, plus one until the deletion drops the list's. |
| Sessions.ZeroStays | src/kernel/sys/dbg_item.c:76-92 | A count that reached zero never rises. |
| Sessions.NoUseAfterFree | src/kernel/sys/debug.c:200-258 | Whoever has an item finds it allocated; whoever uses its channel finds that allocated and holds a counted reference. |
| Sessions.FreesAloneAndWithoutWaiting | src/kernel/sys/dbg_item.c:90-107 | channel_free runs when nobody is inside and nobody else holds the item, so it never waits. |
| Sessions.NothingLeaks | src/kernel/sys/dbg_item.c:90-116 | With no routine running, an item has been freed exactly if it was deleted; the others are listed with one reference. |
| Sessions.FirstDeletionIffActive | src/kernel/sys/dbg_item.c:109-116 | A deletion is the first one exactly if it finds the item active. |
| SessionRoutines.ActsOnOwnSession | src/kernel/sys/debug.c:117-701 | In every concurrent run a routine works on a session of its own debugger or debuggee, and does to it only what it is there to do: attaching never uses a channel, and only the termination loop and the delayed event delete. |
| SessionRoutines.LoopClearsAll | src/kernel/sys/debug.c:328-346 | dbg_process_terminated leaves its loop only when no active session of the dead debugger is left, and then looks for the one that debugs the dead process. |
| SessionRoutines.OneSessionEach | src/kernel/sys/debug.c:143-156 | A process has at most one active session as long as no two attaches to it overlapped between search and activation. |
| DoubleAttach.OverlapBreaks | src/kernel/sys/debug.c:143-156 | Wherever two attaches to one process overlap, the run can go on to two active sessions for it. |
| DoubleAttach.AttachesOverlap | src/kernel/sys/debug.c:143-156 | Two attaches to one process can overlap. |
| SecondDeletion.SecondDeletionIsReachable | src/kernel/sys/debug.c:301-381 | A run in which dbg_delayed_term_event is about to delete a session that the debugger's own termination has deleted, with one reference left for two to drop. |
| Registry.ClearedMeans | src/kernel/sys/debug.c:328-343 | After the loop every session of the dead debugger is inactive and released and has lost exactly the list's reference; all others are unchanged. |
| Registry.OrphanFound | src/kernel/sys/debug.c:329-343 | Each turn of the loop removes one active session of the dead debugger and touches no other. |
| Registry.DebugRegistry.FindItem | src/kernel/sys/dbg_item.c:54-88 | The loop finds the first match and takes a reference to it. |
| Registry.DebugRegistry.DeleteItem | src/kernel/sys/dbg_item.c:109-116 | Deactivated, released, one reference dropped, and freed with it if it was the last. |
| Registry.DebugRegistry.AttachCall | src/kernel/sys/debug.c:117-176 | Succeeds exactly for a known process other than the caller that nobody debugs, and then adds one session with the list's reference. |
| Registry.DebugRegistry.SetFilter | src/kernel/sys/debug.c:178-220 | Changes the mask of the caller's own session with that process, if there is one, and nothing else. |
| Registry.DebugRegistry.UseChannel | src/kernel/sys/debug.c:222-261 | Receive and continue act on the caller's own session or not at all, and leave every count as it was. |
| Registry.DebugRegistry.ProcessTerminated | src/kernel/sys/debug.c:318-383 | The loop ends and leaves no session of the terminated debugger; the terminated debuggee's session is handed over with a reference exactly if its mask has bit value 2 and the event could be started. |
| SessionBook.MaskIsAsked | src/kernel/sys/debug.c:178-220 | A session's mask is that of the last filter call its own debugger made since it attached, and 0 before the first. |
| SessionBook.ToldIffAsked | src/kernel/sys/debug.c:346-380 | After any calls, a termination is told to the debugger exactly if that mask has bit value 2 and the event could be started. |
| SessionBook.DebuggersDiffer | src/kernel/sys/debug.c:137-141 | After any calls nobody debugs itself. |
| Registry.TerminationIsBooked | src/kernel/sys/debug.c:318-383 | What a termination does to the list is what it does to the book: the dead debugger's sessions go, and the hand-over adds one pending event. |
| Registry.AttachIsBooked | src/kernel/sys/debug.c:117-176 | The same for an attach, successful or not. |
| Registry.DebugRegistry.Serve | src/kernel/sys/debug.c:117-701 | Over every sequence of calls: one active session a debuggee, debugger other than debuggee, every active session has a channel, and filter, receive and continue act only on sessions the caller attached; the list represents the book of these calls, and every call answers what the book answers. |
| KeyTree.EmptyKey | src/kernel/sys/regio.c:201-206 | The loop, with its index going back after each deletion, visits every original subkey once and leaves what LeftOf says. |
| KeyTree.DeleteKeyRecurse | src/kernel/sys/regio.c:189-213 | It terminates on every tree, succeeds exactly when the key is gone, and changes nothing else of the parent. |
| KeyTree.EnumerableFits | src/kernel/sys/regio.c:92-105 | A name is enumerated exactly if sixteen bytes and two for each character fit in 520, and then fits the caller's buffer with its terminator. |
| KeySurvivors.PlainTreesGo | src/kernel/sys/regio.c:189-213 | A tree of openable and deletable keys with names of at most 252 characters goes entirely. |
| KeySurvivors.LongNamesStay | src/kernel/sys/regio.c:201-206 | One subkey name of 253 characters or more keeps its parent, and itself as it was. |
| KeySurvivors.GoneIffUnobstructed | src/kernel/sys/regio.c:189-213 | The key goes exactly when nothing in its subtree cannot be opened, deleted or enumerated. |
| KeySurvivors.SurvivorsAreTheObstructed | src/kernel/sys/regio.c:189-213 | A key survives exactly if it lies under an unopenable or unreached key, or has such a key, or an undeletable one, in its subtree. |

## Left out

- The user interface (`src/ui`), the Win32 wrappers, the driver's dispatch, memory mapping and CR0 access, the rest of `regio.c` and `misc.c`: no state of interest.
- `syscall.c`: short checks on buffers.
- Allocation failures, and the locals `chan` and `succs` that are used uninitialised on error paths.
- Structured exception handling, thread contexts, exception filters (their result is not used) and the contents of messages.
- Rendezvous.RunRefinesServer: the channel's buffer is two parts rather than one byte array with sizes, and a copy is one step; with one receiving thread no two copies of one part overlap.
- ChannelTheorems.SomebodyCanMove: progress after an aborted wait is not claimed, and after a release only what `BrokenCalls.ReleaseWakes` says.
- OpcodeMap.FlagsByTheManual: the map is that of 32-bit code without VEX and EVEX prefixes, which begin like LES, LDS and BOUND.
- InstructionGrammar.ManualSizes: the bytes that follow a three-byte opcode are not laid out; `InstructionGrammar.NothingMore` says what the decoder makes of its first two bytes.
- Sessions.NoUseAfterFree: unlinking an item, which the code does without the spin lock, is one step of its own; damage to the list's links by two such steps at the same time is not modelled.
- KeyTree.DeleteKeyRecurse: a registry handle is the key's value, and the parent is handed back instead of being changed underneath; nothing but the call itself changes the subtree meanwhile. The loop is a method of its own, `KeyTree.EmptyKey`.
- Registry.DebugRegistry.ProcessTerminated: `NtTerminateProcess` is a call that does not come back into the hooks.
- HookTheorems.HooksAreLifo: says what entering a procedure does. A processor that was stopped in the middle of the five bytes that a splice replaces goes on there afterwards.
- ReturnAddresses.OldPointerThroughCalls: instructions are asked to use return addresses only to return; one that reads its own return address for another purpose gets the trampoline's.
- CodeHook.Patcher.HotPatch: the descriptor that is not freed where `hot_patch` gives up at its end.
