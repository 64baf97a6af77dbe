# K-UI machine-code checks, modelled and proved

K-UI's build refuses to ship unless a set of Python checkers accepts its linked SH-4 code, its binary
transformations and its packed assets. This project models those checkers and the machine they talk about,
and proves what their acceptance means: for every image, every machine state, every run, every call graph
and every byte string, not for the fixtures of the test suite.

The modules, one per component:

- `Words`, `Opcodes`, `Sh4`, `Sh4Bytes`, `Instructions`: 32-bit words, opcodes as four hexadecimal digits, and the
  SH-4 integer machine with delay slots, banked registers, control registers and physically aliased memory.
- `Cursor`, `Publication`, `EntryFrame`, `EntryResume`, `EntryCopy`, `Bootstrap`, `Gateway`, `GatewayRun`: the
  linked-code audits. An audit is a method that walks an image; the theorems say what the machine does with every
  image it accepts. `EntryFailure` holds accepted images and owners for which a condition of those theorems fails.
- `RegisterWrites`, `WritesExactly`, `SnapshotFlow`, `SnapshotPaths`: the worklist data-flow analysis, what it accepts
  over control paths, and its soundness for executions.
- `ColdCpu`, `ColdExec`, `ScanBlocks`, `ScanRun`: the cold installer's CPU, its agreement with the SH-4 machine, and
  the block translator against single-step dispatch.
- `ColdWatch`, `ColdRun`, `ColdGuards`, `ColdOrder`, `ColdWords`, `ColdTurns`, `ColdMachine`: the publication rules of
  every watched run, and the verdict on it. `ColdReentry` is one run, with its code, that enters publication twice.
- `Sink`, `SinkMachine`, `SinkAdmits`: the closed interpreter for a halfword copy routine over arbitrary code bytes,
  against the SH-4 machine, and what it admits.
- `CallDepth`, `DepthMemo`, `ScanDepth`, `ScanDepthMemo`: worst-case stack over call graphs, with and without memo.
- `LittleEndian`, `PeRebase`, `PeFixups`, `PeBlocks`: rebasing PE text by its HIGHLOW fixups.
- `PhotoHold`, `PhotoTail`: removing the photo hold from a pinned body, and both tails executed.
- `Bundle`, `BundleCodec`, `BundleText`: the runtime module bundle.
- `LoaderLayout`, `LoaderLaws`, `ElfImage`, `ElfWritten`: inspecting and flattening a freestanding ELF file.
- `BootBadge`: the MR run-length code. `SplashPng`: PNG row filters, blending and RGB565 packing.

Where the code and its description differ, the model follows the code. Each entry names the exact condition and an
input that fails it:

- `writes_gpr` answers "not written" for GBR loads and immediate logic on r0 and for bank switches by `LDC Rm,SR`;
  it is conservative for exactly r8-r15 (`RegisterWrites.ConservativeExactly`, `R0Counterexample`,
  `BankedCounterexample`).
- The same predicate reports a write of r8-r15 for listed operations that never change the register, and for no other
  (`WritesExactly.ReportedExactly`).
- The sink interpreter runs a push of the stack pointer by itself and a literal load in a delay slot, which it admits,
  otherwise than the machine: the first stores the moved pointer instead of the old one, the second raises an exception
  (`SinkMachine.SelfPushDiffers`, `SinkMachine.SelfPushAdmitted`, `SinkMachine.SlotLiteralFaults`). Every other admitted
  instruction runs alike (`SinkMachine.InstructionExactly`), so an accepted routine without these two copies on the
  machine (`SinkMachine.AcceptedExecutes`).
- The installer's dispatch does not exchange r0-r7 when `LDC Rm,SR` switches the bank; with that exception it leaves
  the registers the machine leaves wherever both decide (`ColdExec.EffectIsExec`).
- The trampoline runs as a copy of its 128 bytes at the owner's entry, but `audit_stage` bounds neither the reach of
  its one literal nor its alignment. A copy enters the resume code exactly when the word its load finds there is the
  resume address (`EntryCopy.CopyJumps`). Beyond the copied bytes nothing binds that word; inside them it is the word
  that stands as far behind the template (`EntryCopy.EntersInside`, `EntryCopy.AlwaysEntersExactly`), and for a copy
  aligned like its template that is the literal. `EntryFailure.FarTemplateJumpsAnywhere` is an accepted image whose
  copy jumps to any word the owner keeps behind its entry, `EntryFailure.OddTemplateMisses` one linked at 2 modulo 4
  whose copy jumps to 0xace2.
- A misaligned owner stack faults at the first save (`EntryCopy.MisalignedOwnerFaults`). A frame word laid over the
  cache control register comes back with the bits 0x808 set, so the owner is restored exactly when that word has them
  already, or belongs to a bank that is not restored (`EntryResume.RestoredExactly`). `EntryFailure.StackOverCcr` is
  an owner whose r0 comes back as 0x808 instead of 0.
- Restoring SR at the end of the resume code exchanges r0-r7 if the relay came back in the other register bank;
  r1-r7 return exactly when it did not (`EntryResume.EntryRoundTrip`, `EntryFailure.OtherBankLoses`).
- Neither audit of the gateway checks the alignment of the state and exports symbols. Besides jumping and stopping,
  an accepted gateway faults, exactly when one of them is misaligned and reached (`GatewayRun.GatewayOutcome`).
- `run_cold` admits a second publication entry. While the first line is still dirty it makes the published word read
  as new, and the newly named word as the first one's old value: `ColdReentry.ReentryCounterexample` is such a run
  from a fresh installer. The promised view holds exactly as long as the slot still names the published word
  (`ColdWords.OldUntilPurgedExactly`), so in every run with one publication entry (`ColdWords.OneEntryStaysOld`).
- The stack report looks a frame up in the compiled frames first, the walk in the assembly leaves first; the
  reported path adds up exactly when its last function is not in both with different sizes (`DepthMemo.ReportAddsUp`,
  `DepthMemo.ReportMisses`).
- The Games scan refuses a function that recurs outside the directory recursion, but its memo forgets the active
  stack, so such a recursion passes when it was walked before with a round of the visitor in between: by an earlier
  entry (`ScanDepthMemo.MemoHidesRecursion`) or below the same fresh one (`ScanDepthMemo.FreshHidesRecursion`). A
  fresh scan refuses exactly when there is a reason, if every reason lies within one round, and exactly when the visit
  over memo keys does in any case (`ScanDepthMemo.FreshScan`); the value of an answer is right either way.
- Removing the photo hold repairs loads of words of the moved pool and one load of the mask halfword, and nothing
  else. `PhotoHold.LongLoadKept` and `PhotoHold.HalfLoadKept` state for every scanned MOV.L and MOV.W inside the body
  exactly which targets still read the same; the pause literal does not, and `PhotoHold.LostHalfLoad` is an accepted
  body whose MOV.W of a pool halfword reads another one afterwards.
- A PE window inside the header is stored at its own address, so a window agrees with the text around it exactly
  when it is not wholly inside the header or the text is stored at its own address (`PeRebase.WindowOffset`,
  `PeRebase.HeaderWindowMoves`).

## Model

| member | source | states |
|---|---|---|
| Cursor.Walker.Expect | tools/check_disc_vmu_handoff.py:73-90 | One cursor call accepts exactly the demanded opcode or PC-relative literal, advances by two and records the bytes it relied on |
| Cursor.Walker.ExpectAll | tools/check_disc_vmu_handoff.py:69-99 | A walk accepts exactly when every item matches, and its witnesses are those items' bytes |
| Cursor.WitnessesSuffice | tools/check_disc_vmu_handoff.py:73-90 | The witnesses are all a walk relies on: an image that shares their bytes is accepted too; they are one halfword for each item and one word for each literal |
| Cursor.AcceptedItemsExecute | tools/check_disc_vmu_handoff.py:69-99 | Accepted straight-line items are exactly what the machine executes there, under any of the address aliases |
| Publication.PurgeLoop | tools/check_disc_vmu_handoff.py:95-99 | The pinned loop purges every remaining 32-byte line of RAM in order and then falls through |
| EntryFrame.AuditEntry | tools/check_disc_vmu_handoff.py:125-160 | The audit accepts exactly the images with this trampoline, padding and resume code |
| EntryCopy.OwnerReachesRelay | src/loader/disc_vmu_stage_asm.S:140-184 | From any owner state with an aligned stack, a copy of an accepted, relocatable trampoline at any entry delivers all 21 saved words, the frame in r4/r8, the CCR word it reads in r5/r9 and a purged RAM to the relay |
| EntryCopy.CopyJumps | src/loader/disc_vmu_stage.c:375-378 | Every copy of an accepted trampoline saves the frame and goes to the word its load finds there |
| EntryCopy.RelocatableExactly | tools/check_disc_vmu_handoff.py:125-142 | The copied load reads the copied literal itself exactly when the literal lies inside the 128 bytes and the alignments agree, and then finds the uncached resume code |
| EntryCopy.FarLiteralUnbound | tools/check_disc_vmu_handoff.py:135-140 | With the literal beyond the copy, one byte outside image and copy sends it elsewhere |
| EntryCopy.EntersInside | tools/check_disc_vmu_handoff.py:125-142 | A copy whose load reads inside the copied bytes enters the resume code if and only if its address stands as far behind the template, which the image decides when it holds that word |
| EntryCopy.AlwaysEntersExactly | tools/check_disc_vmu_handoff.py:125-142 | Every memory holding image and copy enters the resume code if and only if the load reads inside the copied bytes and finds its address there; for a copy aligned like its template, if and only if the template is relocatable |
| EntryCopy.OwnerRoundTrip | tools/check_disc_vmu_handoff.py:125-160 | End to end: from the copied entry through any relay that keeps its contract, even one that replaces the copied bytes, to 0xac010000 with every register given, and the owner restored if and only if each frame word over the cache control register is harmless |
| EntryCopy.MisalignedOwnerFaults | tools/check_disc_vmu_handoff.py:129-132 | A misaligned owner stack faults at the first save |
| EntryFailure.FarTemplateJumpsAnywhere | tools/check_disc_vmu_handoff.py:125-142 | An image the audit accepts, whose copied trampoline jumps to any word at all |
| EntryFailure.OddTemplateMisses | tools/check_disc_vmu_handoff.py:125-142 | An accepted template at 2 modulo 4 with its literal inside the 128 bytes, whose copy jumps to 0xace2 |
| EntryFailure.StackOverCcr | tools/check_disc_vmu_handoff.py:151-160 | An owner with r0 = 0 saved over the cache control register comes back with r0 = 0x808, whatever the relay does within its contract |
| EntryFailure.OtherBankLoses | tools/check_disc_vmu_handoff.py:151-160 | A relay within its contract that returns in the other bank loses r1 |
| EntryResume.RestoredExactly | tools/check_disc_vmu_handoff.py:151-160 | Given what comes back, the owner is restored if and only if no frame word lies over the cache control register, or the one that does already has the bits 0x808 or is an r1-r7 of a bank that is not restored |
| EntryResume.EntryRoundTrip | tools/check_disc_vmu_handoff.py:125-160 | For every aligned owner stack, after any relay that keeps r8, r9 and every frame word but 5, the machine enters 0xac010000 with r0, r8-r14, SR, VBR, GBR, MACH and MACL as saved, PR from word 5, SP as it was, r1-r7 exactly when the bank is the owner's, and 0x808 set in a word over the cache control register; restored under the condition above and no other |
| Bootstrap.AuditBootstrap | tools/check_disc_handoff.py:17-104 | The audit accepts exactly the wrapper sequence with its FPSCR witness and fallthrough return |
| Bootstrap.BootstrapHandsOver | tools/check_disc_handoff.py:58-106 | Every accepted wrapper purges RAM and enters 0xac00e000 with SP = VBR = 0x8c00f400, fixed GBR, SSR, SR and FPSCR, PR at the handler, r0-r14 and MAC zero, T clear |
| Bootstrap.BootstrapReturns | tools/check_disc_handoff.py:98-106 | A second bootstrap that returns to its PR, entry + 102, enters the disc stage's handler with SP 0x8cff0000, having stored and purged nothing |
| Bootstrap.LinesAreRam | tools/check_disc_handoff.py:61-69 | The purged lines are each 32-byte line of 0x8c000000-0x8d000000 exactly once and no other |
| Bootstrap.AuditStageEnter | tools/check_disc_vmu_handoff.py:102-123 | The VMU stage entry is accepted exactly when it is the same wrapper with its own return handler |
| Bootstrap.StageHandsOver | tools/check_disc_vmu_handoff.py:102-123 | An accepted VMU stage entry, wherever linked, hands over in the same state |
| Bootstrap.StageReturns | tools/check_disc_vmu_handoff.py:118-123 | So does one that returns to the VMU stage, with that stage's own handler |
| Gateway.AuditGateway | tools/check_disc_vmu_support.py:61-135 | The audit accepts exactly the check sequence whose every refusal branches to the stop loop behind the jump |
| Gateway.RefusalEncodings | tools/check_disc_vmu_handoff.py:602-604 | A refusal opcode computed from the stop address is the only one that branches there |
| Gateway.AuditSupport | tools/check_disc_vmu_handoff.py:579-608 | The handoff audit accepts exactly the encoded sequence for the linked terminal, state and exports symbols |
| Gateway.SupportIsGateway | tools/check_disc_vmu_handoff.py:579-608 | Wherever the exports are linked, that audit accepts exactly the gateways with those exports, so every theorem about them applies |
| GatewayRun.ChecksDecide | tools/check_disc_vmu_support.py:90-130 | For any state and exports address, the checks pass exactly when marker, stack pin, magic, version, sizes, terminal, stack, endpoint, bounds and parity hold and then select the P1 worker stack; they fault exactly when a misaligned state or a reached misaligned worker is read; they stop otherwise |
| GatewayRun.GatewayNeverStores | tools/check_disc_vmu_support.py:90-135 | However long it runs, until it jumps an accepted gateway stays inside itself and stores nothing |
| GatewayRun.GatewayOutcome | tools/check_disc_vmu_support.py:90-135 | It jumps to the pinned terminal with SP at the P1 worker stack exactly when memory admits it, cannot step on exactly when a guard word is unreadable, and otherwise reaches the stop loop and never leaves; memory is untouched |
| GatewayRun.StopLoops | tools/check_disc_vmu_support.py:131-135 | The stop loop is a fixed point of the machine |
| RegisterWrites.NotWrittenIsKept | tools/check_disc_vmu_handoff.py:401-434 | For r8-r15, an instruction not reported as a write leaves the register alone in every state |
| RegisterWrites.R0Counterexample | tools/check_disc_vmu_handoff.py:401-434 | AND #0,R0 changes r0 although it is reported as no write |
| RegisterWrites.BankedCounterexample | tools/check_disc_vmu_handoff.py:401-434 | LDC R0,SR changes any of r1-r7 although it is reported as no write |
| RegisterWrites.ConservativeExactly | tools/check_disc_vmu_handoff.py:401-434 | The report is conservative for a register if and only if it is one of r8-r15 |
| WritesExactly.ReportedExactly | tools/check_disc_vmu_handoff.py:401-434 | For r8-r15 some state changes the register if and only if the instruction is reported and not one of the listed operations, and every listed one is reported |
| SnapshotFlow.SnapshotSourceRetained | tools/check_disc_vmu_handoff.py:237-300 | The worklist terminates and accepts exactly when no reachable (pc, flag) place is bad and the loop is reached |
| SnapshotPaths.AcceptedPaths | tools/check_disc_vmu_handoff.py:237-300 | It accepts if and only if no control path of the image meets an unsupported transfer, a missing or illegal slot or an address outside, some path reaches the loop, and on every one that does the pinned load comes after the last instruction reported as a write of R13 |
| SnapshotPaths.EdgesAreTargets | tools/check_disc_vmu_handoff.py:262-297 | The edges of those paths at branches are exactly the machine's targets, with T either way |
| SnapshotFlow.StepDescribed | tools/check_disc_vmu_handoff.py:256-298 | Every concrete step of the helper is described by a successor the analysis enqueues |
| SnapshotFlow.RetainedAtLoop | tools/check_disc_vmu_handoff.py:237-300 | If the analysis accepts, every execution that reaches the copy loop arrives with R13 holding the typed source |
| ScanBlocks.ScalarIsEffect | tools/check_native_bottom_heap.py:631-668 | Each translated scalar has the effect of the inherited instruction dispatch, guards included |
| ColdExec.EffectIsExec | tools/check_native_bottom_heap.py:1099-1126 | Wherever the inherited dispatch and the SH-4 machine both decide, they leave the same registers, SR, PR and MACL, unless LDC to SR switches the bank |
| ColdExec.LiteralAlike | tools/check_native_bottom_heap.py:1099-1126 | So for the PC-relative loads and MOVA, over code that reads as data |
| ColdExec.GoesIsTarget | tools/check_native_bottom_heap.py:1250-1273 | The dispatch loop branches where the machine does and links as it does |
| ColdExec.DispatchedExactly | tools/check_native_bottom_heap.py:1099-1126 | An instruction without an access is dispatched exactly when its halfword is on the list of masks |
| ScanRun.BlockIsSteps | tools/check_native_bottom_heap.py:670-699 | A decoded block and that many single dispatches both refuse or reach the same registers, memory, PR, SR, pc, executed set and instruction count, with every dispatch inside the spans |
| ScanRun.RefusedDecodeIsRefusedRun | tools/check_native_bottom_heap.py:670-696 | Where decoding refuses, single-stepping is refused too before it leaves the spans |
| ScanRun.Scanner.Run | tools/check_native_bottom_heap.py:701-707 | If reviewed code is not rewritten, the cached-block loop stops in the state where single-stepping first leaves the spans, or single-stepping fails |
| ScanRun.LeavesOnce | tools/check_native_bottom_heap.py:701-707 | That state is unique |
| ScanRun.LeavingIsNotFailing | tools/check_native_bottom_heap.py:701-707 | A reference run that leaves within the bound is not a failing one |
| ScanRun.OnlySpansExecute | tools/check_native_bottom_heap.py:627-628 | Nothing outside the spans executes except a delay slot just behind them |
| ColdWatch.StoreOnReserve | tools/check_native_bottom_heap.py:1045-1082 | A watched store is either the one publication, recorded with the old value, or leaves the reserve word and its record alone |
| ColdGuards.AdmittedExactly | tools/check_native_bottom_heap.py:1045-1082 | A watched store is admitted exactly when every byte of it is the allocator's own or the stage's, or it is the one publication, and the published lease is not stored again once the worker runs |
| ColdWatch.ViewIsRead | tools/check_native_bottom_heap.py:1036-1043 | The uncached view of the reserve word is what a P2 read returns |
| ColdWatch.EffectLawful | tools/check_native_bottom_heap.py:1084-1126 | Every instruction of a watched run keeps the publication invariant, the uncached view and the lease word as promised |
| ColdRun.MoveLawful | tools/check_native_bottom_heap.py:1133-1272 | So does every move of the dispatch loop: events, leaves and instructions |
| ColdGuards.EventsExactly | tools/check_native_bottom_heap.py:1194-1232 | Preparation notes lease and plan from R4 and R5 once and first; publication wants both again, and with a budget an allocation wants the lease |
| ColdGuards.PlanExactly | tools/check_native_bottom_heap.py:1206-1228 | A publication entry is accepted exactly with five zero words or a budgeted plan inside the image, and sets slot and value from it |
| ColdGuards.HelperExactly | tools/check_native_bottom_heap.py:1200-1205 | The budget helper is entered exactly with the image, the live reader, the cost and the prepared plan |
| ColdGuards.HandedExactly | tools/check_native_bottom_heap.py:1157-1165 | The worker is entered exactly with the armed bottom lease, published, and status 3 |
| ColdGuards.TextExactly | tools/check_native_bottom_heap.py:1137-1140 | A displayed text is accepted exactly when it begins with COLD and a space |
| ColdGuards.HashesFollowed | tools/check_native_bottom_heap.py:1141-1149 | A hash context starts empty and grows by the owner's code exactly when it exists and the arguments name that code |
| ColdGuards.LeafReturns | tools/check_native_bottom_heap.py:1128-1131 | A leaf returns zero, seven fixed words, R8 to R15 and T set |
| ColdRun.RunKept | tools/check_native_bottom_heap.py:1167-1272 | Every state of every run keeps the invariant: at most one reserve store, only with a prepared budget and a publication entry, and the word it wrote |
| ColdRun.RecordIsFinal | tools/check_native_bottom_heap.py:1062-1070 | The record of the publication never changes once made, and none is made after the handoff |
| ColdOrder.CountersAreCounts | tools/check_native_bottom_heap.py:1191-1249 | In every state of every run the preparation, publication, allocator and worker counters are the numbers of earlier moves that start at those entry points |
| ColdOrder.PublishedInOrder | tools/check_native_bottom_heap.py:1062-1075 | Whenever a move publishes, exactly one earlier move was at preparation, before each of exactly three earlier moves at allocator or releaser; exactly one was at the publication entry, after preparation; none was at the worker, and the move itself is not at the allocator |
| ColdWords.ReserveStoredOnce | tools/check_native_bottom_heap.py:1045-1082 | In a whole run from a fresh installer at most one move changes any word that is clear of stage, allocator and control stores: the publication of the planned value to the planned slot, whether known before or not, behind one preparation move, one publication entry and three allocator moves in that order, with no worker entry before it |
| ColdWords.WordOverRun | tools/check_native_bottom_heap.py:1045-1082 | In every state of every run such a word holds its initial value, or the published one if it is the word on record |
| ColdRun.LeaseFrozen | tools/check_native_bottom_heap.py:1079-1081 | After the worker was entered the lease word and its record never change |
| ColdWords.UncachedWordIsRead | tools/check_native_bottom_heap.py:1036-1043 | The uncached value of any word is what a P2 read of it returns |
| ColdWords.ViewOverRun | tools/check_native_bottom_heap.py:1036-1097 | In every state of every run a P2 reader sees the published word's initial value as long as its line is dirty under a slot that names it, and the published value otherwise |
| ColdWords.OldUntilPurgedExactly | tools/check_native_bottom_heap.py:1036-1043 | While the line is dirty the old value is seen if and only if the slot still names the word, or nothing changed |
| ColdWords.OneEntryStaysOld | tools/check_native_bottom_heap.py:1036-1043 | In a run with at most one move at the publication entry the published word reads as initially as long as its line is dirty |
| ColdWords.CleanStays | tools/check_native_bottom_heap.py:1084-1094 | Once purged, the line stays clean for the rest of the run |
| ColdReentry.ReentryCounterexample | tools/check_native_bottom_heap.py:1206-1228 | A run of real code from a fresh installer: it publishes, rewrites the plan and branches back to publication; the second entry is accepted, the published word then reads as new before any purge and the other, unchanged word as the old value of the first |
| ColdMachine.Cold.Digest | tools/check_native_bottom_heap.py:1150-1156 | With a finished hash context, the digest leaf succeeds exactly when all its byte stores are admitted; those and its return, which gives the context up, are moves of the loop |
| ColdTurns.DigestLeaves | tools/check_native_bottom_heap.py:1150-1156 | After a digest turn the hash of the context stands at r5, byte behind byte, and no other byte has changed |
| ColdMachine.Cold.RunCold | tools/check_native_bottom_heap.py:1167-1276 | Its states are consecutive moves, and its verdict is the one and only any path of turns from its start shows: Installed exactly when one reaches the return address within the bound with SP, r8-r14 and SR kept, Refused exactly when one reaches the report, Rejected exactly for lost registers, a state without a turn, or the bound |
| ColdTurns.OneVerdict | tools/check_native_bottom_heap.py:1167-1276 | No run of turns shows two verdicts |
| ColdMachine.TracedIsRun | tools/check_native_bottom_heap.py:1167-1276 | A fresh installer's states over a clear layout form a run, so each holds at most one reserve store |
| Sink.StepConfined | tools/check_ce_virtual_vram_width.py:33-98 | One step of any code changes memory by at most one even halfword of the rounded destination, uses two stack words and counts up |
| Sink.AcceptedCopies | tools/check_ce_virtual_vram_width.py:99-104 | A confined state that passes the final checks has the destination equal to the untouched source, every other byte initial and r8-r15 intact; an empty copy stored nothing |
| Sink.Machine.Run | tools/check_ce_virtual_vram_width.py:85-104 | For any code the run ends; it succeeds exactly when the steps reach the return address in an accepted state, and then everything above holds |
| SinkMachine.InstructionExactly | tools/check_ce_virtual_vram_width.py:51-83 | Every admitted instruction but a literal load leaves the registers, T, MACL and memory the SH-4 machine leaves, if and only if it is not a push of a pointer by itself |
| SinkMachine.SelfPushDiffers | tools/check_ce_virtual_vram_width.py:68-69 | Such a push stores the moved pointer here and the old one on the machine |
| SinkMachine.SlotLiteralFaults | tools/check_ce_virtual_vram_width.py:90-97 | A literal load in a delay slot raises an exception on the machine |
| SinkMachine.StepAlike | tools/check_ce_virtual_vram_width.py:85-98 | Elsewhere one turn is one machine step, branch targets included |
| SinkMachine.AcceptedExecutes | tools/check_ce_virtual_vram_width.py:85-104 | On the machine an accepted routine without those two comes back to its caller with r8-r15 kept, the destination equal to the untouched source and no other byte changed |
| SinkAdmits.AdmittedExactly | tools/check_ce_virtual_vram_width.py:51-84 | An instruction is admitted exactly when its halfword is on the list of masks, or its one access is: a read of written stack words, code, source or window, or a store to the two stack words or a halfword of the window |
| SinkAdmits.AcceptedExactly | tools/check_ce_virtual_vram_width.py:99-104 | The final checks hold if and only if the copy promise does |
| SinkAdmits.SpinsExactly | tools/check_ce_virtual_vram_width.py:86-88 | A routine that branches to itself gets exactly five thousand turns |
| SinkAdmits.PairAccepted | tools/check_ce_virtual_vram_width.py:85-104 | A nine-instruction routine for two bytes is accepted at all addresses, with its one store |
| Sink.SourceIntact | tools/check_ce_virtual_vram_width.py:41-50 | In every state any code can reach, each source byte is the original |
| CallDepth.ResolvesExactly | tools/check_armada_ce_vmu_a2.py:621-626 | A name that is no node itself resolves exactly to the sole frame with its base name |
| CallDepth.RefusesExactly | tools/check_armada_ce_maple_fence.py:154-172 | The walk without a memo refuses if and only if a cycle or a missing frame can be reached |
| CallDepth.AnswerIsMaximum | tools/check_armada_ce_maple_fence.py:154-172 | Otherwise its answer is the largest frame total over all call paths, attained by one |
| CallDepth.ClosedIgnoresActive | tools/check_armada_ce_maple_fence.py:154-172 | Inside a set closed under calls the active path does not change the answer |
| DepthMemo.Walker.Walk | tools/check_armada_ce_vmu_a2.py:638-673 | The memoised walk returns exactly the answer without a memo, and its memo, successors and seen set stay sound |
| DepthMemo.Walker.BestPath | tools/check_armada_ce_vmu_a2.py:674-677 | Following the remembered successors ends and gives a call path whose frames sum to the answer |
| DepthMemo.Walker.Audit | tools/check_armada_ce_vmu_a2.py:616-677 | The audit refuses exactly when the root or a callback has no single frame, two callbacks share one, or a cycle or missing frame can be reached; otherwise it returns the maximum, a path attaining it, and has seen exactly the reachable functions |
| DepthMemo.ReportAddsUp | tools/check_armada_ce_vmu_a2.py:674-677 | The reported frame sizes add up if and only if the last function is not an assembly leaf with a different compiled frame |
| DepthMemo.ReportMisses | tools/check_armada_ce_vmu_a2.py:674-677 | A graph with a depth of 14 bytes whose reported frames add up to 18 |
| ScanDepth.CallDescends | tools/check_games_scan_stack.py:150-167 | Without a cycle in walk and walk_entry alone, every nested call goes down in fresh functions, rounds left and walk nesting |
| ScanDepth.FrameOnBest | tools/check_games_scan_stack.py:164-166 | A frame on top of the best callee answer is the longest route, whatever is active |
| ScanDepthMemo.Scan.Walk | tools/check_games_scan_stack.py:150-167 | It answers with the largest frame total over call paths that enter the visitor at most scan_depth times and a path attaining it, or refuses with a path to a dynamic frame or an active function; it answers exactly when the visit over memo keys does, and the memo then has exactly those keys |
| ScanDepthMemo.RouteFixed | tools/check_games_scan_stack.py:152-160 | Below an answer every frame on every such path is fixed and every callee is emitted or noted as a boundary |
| ScanDepthMemo.NoRoundlessCycle | tools/check_games_scan_stack.py:157-163 | Below an answer no path comes back to a function without another visitor round in between |
| ScanDepthMemo.MemoHidesRecursion | tools/check_games_scan_stack.py:159-163 | A helper that recurs through the visitor is answered once the visitor was walked, although its recursion is a reason to refuse |
| ScanDepthMemo.FreshHidesRecursion | tools/check_games_scan_stack.py:159-163 | One fresh entry that calls the visitor and then the helper is answered in spite of a reason below it |
| ScanDepthMemo.FreshScan | tools/check_games_scan_stack.py:150-167 | From an empty memo it answers exactly when the visit over memo keys does, refuses only with a reason, and exactly when there is one if every reason lies within one visitor round |
| ScanDepthMemo.InnerCycleIsRefused | tools/check_games_scan_stack.py:150-167 | With a cycle in walk and walk_entry alone, one of them never answers however deep calls may nest |
| PeFixups.HighlowTargets | tools/armada_ce_maple_audit.py:56-82 | The cursor loop answers exactly when the blocks tile the directory and all fixups are usable and disjoint, with exactly those targets |
| PeBlocks.ParsedExactly | tools/armada_ce_maple_audit.py:63-72 | Reading accepts a directory if and only if it is written block by block: a page of the image, its size, and an even number of entries in the page |
| PeBlocks.ParsedWritten | tools/armada_ce_maple_audit.py:63-82 | The entries it reads are those written |
| PeBlocks.AcceptableExactly | tools/armada_ce_maple_audit.py:73-81 | The entries are accepted if and only if each is padding of kind 0 or of kind 3 with all four bytes in the image and in the file, and no byte is covered twice |
| PeBlocks.DirectoryExactly | tools/armada_ce_maple_audit.py:56-62 | The directory is the sixth one, not empty, inside the image and stored in the file |
| PeFixups.AcceptedSpread | tools/armada_ce_maple_audit.py:77-80 | Accepted targets are pairwise at least four apart, inside the image and stored in the file |
| PeRebase.OffsetExactly | tools/armada_pe_audio_audit.py:82-89 | A range is stored at its own address exactly when all its bytes are header bytes, and else in the only section that stores all its bytes |
| PeRebase.RebaseText | tools/armada_ce_maple_audit.py:97-106 | Patching in place in any order gives one result, counts the text fixups and refuses exactly when a fixup straddles |
| PeRebase.RebaseUndone | tools/armada_ce_maple_audit.py:97-106 | Rebasing by the opposite delta modulo 2^32 gives the bytes back |
| PeRebase.WindowIsSlice | tools/armada_ce_maple_headers_audit.py:70-86 | Rebasing a window that no fixup straddles is the window of the rebased text |
| PeRebase.WindowOffset | tools/armada_pe_audio_audit.py:82-89 | A window is stored at its distance from the text exactly when it is not wholly in the header or the text is stored at its own address |
| PeRebase.HeaderWindowMoves | tools/armada_pe_audio_audit.py:82-89 | A text that begins inside the header, with a window stored elsewhere |
| PeRebase.WindowFollowsText | tools/armada_ce_maple_headers_audit.py:70-86 | If the whole rebased text equals the ROM text, each window that ends behind the header equals the ROM window |
| PhotoHold.WithoutPhoto | tools/check_armada_ce_excerpt.py:412-438 | Accepted exactly for the reviewed tail and repair set; every byte of the result is stated |
| PhotoHold.RepairedLoad | tools/check_armada_ce_excerpt.py:422-433 | Each repaired MOV.L or MOV.W keeps opcode and register and reads the same literal |
| PhotoHold.LongLoadKept | tools/check_armada_ce_excerpt.py:422-433 | Every scanned MOV.L inside the body still reads the same word if and only if it names a moved pool word other than the pause, or two halfwords that stay |
| PhotoHold.HalfLoadKept | tools/check_armada_ce_excerpt.py:422-433 | Every scanned MOV.W inside the body still reads the same halfword if and only if it names the mask, or a halfword that stays |
| PhotoHold.HalfStaysExactly | tools/check_armada_ce_excerpt.py:420-438 | A halfword stays exactly when it is code before the tail that is not repaired, or a moved one equal to its successor four bytes on |
| PhotoHold.LostHalfLoad | tools/check_armada_ce_excerpt.py:412-438 | An accepted body whose MOV.W of a pool halfword is left alone and reads another one afterwards |
| PhotoHold.LiteralsSurvive | tools/check_armada_ce_excerpt.py:420-433 | A MOV.L of any word of either literal pool survives the removal; one of the pause does not |
| PhotoHold.MappedOffset | tools/check_armada_ce_excerpt.py:441-460 | A mapped relocation offset names the same word, and no two share one |
| PhotoTail.OldCallsLine | tools/check_armada_ce_excerpt.py:413-417 | The reviewed tail calls the display line with everything as it stands |
| PhotoTail.OldEntersPause | tools/check_armada_ce_excerpt.py:413-417 | After it returns, the reviewed tail restores SP, PR and r8-r14 and enters the pause with 120 |
| PhotoTail.NewCallsLine | tools/check_armada_ce_excerpt.py:418-421 | The new tail restores the same frame and enters the line with the same arguments |
| PhotoTail.TailsAgree | tools/check_armada_ce_excerpt.py:412-421 | From one state both tails make the same line call and give back the same SP, PR and r8-r14; only pause(120) is dropped |
| Bundle.DecodeExactly | tools/build_runtime_module_bundle.py:49-76 | Decoding accepts a byte string if and only if it is the layout of a well-formed member list, and returns that list |
| Bundle.BlobsTile | tools/build_runtime_module_bundle.py:61-76 | The blobs follow each other with no gap and no overlap |
| BundleCodec.Encode | tools/build_runtime_module_bundle.py:26-46 | It answers exactly for encodable member maps, with their layout |
| BundleCodec.Read | tools/build_runtime_module_bundle.py:49-76 | The loop fills exactly the dictionary of the decoded list |
| BundleCodec.EncodeDecodes | tools/build_runtime_module_bundle.py:26-76 | Decoding what was encoded gives the member map and the build back |
| BundleCodec.Locate | tools/build_runtime_module_bundle.py:79-94 | It succeeds if and only if the prefix occurs exactly once and a complete bundle stands there |
| BundleText.ValidPathExactly | tools/build_runtime_module_bundle.py:21-23 | A path is valid if and only if it is shorter than 80 bytes, has no two dots side by side and matches apps/(games or disc)/ with a stem and .kui |
| BundleText.ValidBuildExactly | tools/build_runtime_module_bundle.py:27-28 | A build is twelve lower-case hexadecimal digits |
| BundleText.Sizes | tools/build_runtime_module_bundle.py:14 | Header, entry and bundle sizes, and the sizes of a member |
| BundleText.OccursExactly | tools/build_runtime_module_bundle.py:79-83 | The prefix looked for is the magic text, version 1 and a header of 96 bytes |
| BundleText.EmbeddedExactly | tools/build_runtime_module_bundle.py:84-90 | A bundle is embedded exactly where the payload goes on with one that decodes |
| LoaderLayout.StackedDisjoint | tools/check_loader_layout.py:58-63 | Sorted adjacent non-overlap makes all load segments pairwise disjoint |
| LoaderLayout.Flatten | tools/check_loader_layout.py:64-68 | The painted payload reads back every segment and is zero elsewhere |
| LoaderLayout.PaintedUnique | tools/check_loader_layout.py:64-68 | Those facts determine every byte of the payload |
| LoaderLayout.SectionInPayload | tools/check_loader_layout.py:76-92 | In private-P2 mode every initialized section's bytes stand in the payload at its physical offset |
| LoaderLayout.Inspect | tools/check_loader_layout.py:44-92 | Given the header tables and the entry, segments, sections and entry are accepted exactly when all checks hold; then the payload is painted and memory_end is the last segment's end, within the limit |
| LoaderLaws.SegmentsExactly | tools/check_loader_layout.py:44-58 | The headers are accepted exactly when none is dynamic, interpreted or thread-local and every load segment is admitted with its bytes in the file; the segments are those |
| LoaderLaws.AdmittedExactly | tools/check_loader_layout.py:50-56 | A load segment is admitted exactly when all its memory lies in the reservation at its cached address, its file bytes fit, and private uncached memory is writable data on a cache line |
| LoaderLaws.PlacedExactly | tools/check_loader_layout.py:73-92 | A section passes exactly when it is not thread-local and, if allocated, all its bytes lie in the reservation and, if private, in the right kind of segment as the file stores them |
| LoaderLaws.StartsExactly | tools/check_loader_layout.py:129-134 | The entry is the symbol's value and the base if asked; a private one lies in executable file bytes |
| ElfWritten.HeaderExactly | tools/check_loader_layout.py:34-43 | A header written field behind field is accepted exactly when its fields are standard and both tables lie in the file, and then names those tables |
| ElfWritten.ProgramRead | tools/check_loader_layout.py:10-45 | A written program header reads back |
| ElfWritten.TableRead | tools/check_loader_layout.py:11-69 | A written section header reads back |
| ElfWritten.SymbolMeans | tools/check_loader_layout.py:99-128 | A written symbol with a text for its name is kept, skipped or refused by its fields as said |
| ElfWritten.NamelessRefused | tools/check_loader_layout.py:101-106 | Without one it is refused |
| ElfWritten.StringsExactly | tools/check_loader_layout.py:96-99 | A symbol table is usable exactly with symbols of sixteen bytes in the file and strings of kind 3 |
| ElfImage.ReadSymbols | tools/check_loader_layout.py:93-128 | The nested symbol loops refuse exactly when a table or an entry does, and otherwise map each kept name to the value of its last entry and nothing else |
| ElfImage.LastNamedUnique | tools/check_loader_layout.py:93-128 | Those facts determine the symbol dictionary |
| ElfImage.InspectFile | tools/check_loader_layout.py:23-136 | A file is accepted exactly when its header fields, tables, symbols, segments, sections and entry are all as asked; then payload, symbols and memory_end are as stated |
| BootBadge.Inspect | tools/boot_badge.py:40-60 | The counting loop accepts exactly the data that decode to the image area |
| BootBadge.Compress | tools/boot_badge.py:151-161 | The nested loops produce the greedy run code |
| BootBadge.RoundTrip | tools/boot_badge.py:151-161 | For colours below 32 decoding the code gives the pixels back |
| BootBadge.TokenForms | tools/boot_badge.py:42-55 | A literal, a run of two bytes, and the long forms for up to 255 and for 256 to 383 pixels read back as written |
| BootBadge.CodeReads | tools/boot_badge.py:42-55 | An encoder token reads back as one short run; neither long form arises |
| BootBadge.NothingShorter | tools/boot_badge.py:151-161 | No bytes that decode to the same pixels are shorter than the code, if they hold only literals and two-byte runs or no 129 pixels in a row are equal |
| BootBadge.LongIsShorter | tools/boot_badge.py:151-161 | With 129 equal pixels in a row, shorter bytes that decode to the same pixels |
| BootBadge.ShortestExactly | tools/boot_badge.py:151-161 | The code is a shortest one if and only if no 129 pixels in a row are equal |
| SplashPng.NearestIsPaeth | tools/build_splash.py:76-79 | The first index of the least distance is the Paeth predictor of section 6.6 of RFC 2083 |
| SplashPng.RestoreRow | tools/build_splash.py:69-81 | The in-place loop restores the row byte by byte |
| SplashPng.RestoredLaws | tools/build_splash.py:69-81 | Each restored byte is the stored one plus nothing, the byte a pixel to the left, the one above, the floor of their mean, or their Paeth predictor, by filter type, with absent bytes zero |
| SplashPng.RestoreFiltered | tools/build_splash.py:69-81 | Restoring undoes filtering for every filter type |
| SplashPng.FilterRestored | tools/build_splash.py:69-81 | Filtering the restored row gives the stored bytes back |
| SplashPng.RowsOfStored | tools/build_splash.py:61-90 | For any mix of filters reading the stored image gives the rows back |
| SplashPng.StoredOfRows | tools/build_splash.py:61-90 | Everything that is read is the stored form of what was read |
| SplashPng.DecodeRows | tools/build_splash.py:61-91 | The loop answers exactly when every filter byte is known, with the packed pixels of the restored rows |
| SplashPng.BlendNearest | tools/build_splash.py:84-88 | A blended channel is the nearest integer to the exact mean, so a byte; full alpha keeps it |
| SplashPng.PackFits | tools/build_splash.py:89 | A packed pixel fits 16 bits and gives back each channel's kept bits |
| SplashPng.PixelFits | tools/build_splash.py:82-89 | So does every pixel of every row |
| SplashPng.PixelLaws | tools/build_splash.py:82-89 | Three bytes are packed as they are, and of four each channel nearest to its mean with the background (8, 15, 35) |
| SplashPng.RowPixelAt | tools/build_splash.py:82-90 | Pixel i of a row is packed from byte i times the channels on |
| SplashPng.OpaquePixel | tools/build_splash.py:82-89 | A pixel stored with full alpha packs its own colour |

## Left out

- The SH-4 machine leaves out exceptions, RTE, TRAPA, SLEEP, the FPU and the MMU; SR and FPSCR writes are not masked to implemented bits, code and data memory are separate, and code bytes stay fixed.
- EntryResume.EntryRoundTrip: the relay is its contract, not its C code; the misaligned stacks it leaves out are those of `EntryCopy.MisalignedOwnerFaults`.
- EntryCopy.OwnerRoundTrip: the whole image stays loaded at its link while the copy stands at the entry; the C code that copies and restores the 128 bytes is not executed.
- Bootstrap.AuditBootstrap: starts after the ELF symbol table was read; section and symbol parsing is not part of this model.
- The support image's header, relocation and export table checks, `audit_entry_return`, `snapshot_capture` and the call-schedule checks: bounded reads and pinned bytes around the gateway and the data-flow analysis.
- SnapshotFlow.RetainedAtLoop: calls keep R13 by the C ABI and floating-point instructions may do anything else.
- ScanRun.Scanner.Run: the `executing` marker and the allocator's identity of a store inside reviewed spans are not kept; the spans are given, not read from symbols.
- ColdWords.ReserveStoredOnce: speaks of aligned words clear of stage, allocator and control stores; that the reserve and lease words are such words is what the linked layout gives, and the log keeps address and value but not the pc.
- ColdMachine.Cold.RunCold: deliberate faults (`change`), checkpoints, the log of entered names and the growing instruction bound are left out; the bound is a parameter, and the scan acceleration is replaced by single steps, which `ScanRun.Scanner.Run` justifies. SHA-256 is a parameter.
- SinkMachine.StepAlike: a literal outside the routine's own code is left to the interpreter, because the machine's code bytes are kept apart from its data; owned addresses are taken to be distinct physical bytes.
- Sink.Machine.Run: the list of reads and the lowest stack address are not recorded; `audit_code`'s choice of cases is not modelled because the theorem is for all cases.
- DepthMemo.Walker.Walk: which callbacks an indirect site may select is a given map, and so are the frames of retained functions.
- ScanDepthMemo.Scan.Walk: the graph with its bound callbacks is given; `prefix`, `reaches` and the byte budget would only add easy members.
- PeFixups.HighlowTargets: the PE header parser is not part of this model; the image's fields are given.
- PhotoTail.TailsAgree: the display line keeps SP, r8-r14 and the caller's frame by the C ABI; branches into the tail from other code are not followed, and a misaligned stack would fault in both tails.
- PhotoHold.LongLoadKept: a load that reads past the end of the body reads whatever is linked there, before and after.
- BundleCodec.Encode: zlib, SHA-256 and package verification are abstract, with only the inverse and size facts; paths are byte strings.
- SplashPng.DecodeRows: PNG chunks, CRC and zlib are not part of this model; the raw rows are given.
- The console's C code, its allocator and worker heap predicates, hash pins, file reading and writing, compiler and build calls, reports, image drawing and audio synthesis.
