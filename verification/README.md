# Verified model of the RISC-V translator and interpreters

The program translates RV32IM (plus LR/SC) binaries to C++ and also interprets them with four
engines: chained ifs, a nested switch, a predecoded table, and direct threading. The same
instruction set is written down five times, and the point of this project is that the five agree,
over whole runs, and exactly when they do not. The guest memory (mmap arena, initial stack) is
modelled beside them.

Words are integers with explicit wrap-around, bit operators act on two's complement integers of
unbounded width, and the emitted C++ is a syntax tree whose expressions have C++ types (literals
above 2^31-1 are 64-bit, mixed operands are converted, signed overflow and missing literals are
undefined). Objects that the source changes in place are classes, its loops are loops, and each of
those methods is proved against a function or property that the lemmas are about.

## Layout

| file | content |
|---|---|
| `Words`, `Isa`, `Machine` | words and bit operators; encoding tables, immediates, decoding; the meaning `Exec` of one decoded instruction |
| `Manual` | what that meaning rests on, in the ISA manual's terms: single bits, bytes, register numbers, corner values |
| `Interpreter`, `Threaded`, `Agreement`, `Predecode` | the engines on a mutable context; where they agree; the instruction cache |
| `Arithmetic`, `RegisterUse` | the M extension against exact products and quotients; the register-use masks |
| `Cpp`, `Translate`, `Generated` | C++ expressions; what is emitted for an instruction and around all of them; the machine that runs it |
| `Emitter`, `BasicBlocks`, `Driver` | the translator itself, as it works: output, constant table, leaders, `main` |
| `Blocks`, `Straight`, `Layout`, `Closure` | each emitted block against its instruction; tracking; labels and jumps |
| `Leaders`, `Known` | which addresses are leaders and which registers are known, exactly, and what that buys |
| `Simulation`, `Runs`, `Original` | one guest step; whole runs; runs on the original text against its image |
| `Divergence`, `Witnesses` | where translation, interpreters and manual part ways; programs that show it |
| `Arena`, `StackImage` | first-fit mmap arena; argv/envp/auxv on the initial stack |

`Runs.TranslationPreservesMeaning` is the main theorem. Its setting (`Runs.Setting`): the output has
a meaning (`Simulation.Translatable`, which `Driver.TranslatableMeans` shows to be exactly that); the
guest's pc stays in the text or reaches its end and it accesses existing memory only; and at each
state, in the mode the guest run and the leaders put it in (`Runs.Mode`), it does not run into the
divergences of that mode: in translated code no overflowing remainder and no jump through the
register it links to, in the fallback no call the switch engine skips and no word that is no longer in
memory (`Simulation.WellBehaved`). Nothing is asked of the host: what its replies do to memory matters
only where the fallback goes on to run. `Runs.ImageStays` gives the memory condition to a guest whose own stores
and calls leave its text alone. Each divergence has a lemma saying exactly when the two sides differ,
and `Witnesses` has programs whose results differ without the conditions, and one that meets them.

Findings about the code that the proofs rest on:

- JALR with rd = rs1 (x0, x0 included): the interpreters overwrite rd before reading rs1, the
  translation does not; they agree exactly when rs1 already holds pc + 4. Neither clears the low bit.
- REM of 0x80000000 by -1: the translation gives 0x80000000, the interpreters 0.
- AUIPC: a negative upper immediate is emitted as `0x-...`, no literal, and a sum from 2^31 on
  overflows an `int`.
- Undecodable words of the text are written to the generated program's memory as 0, so a guest that
  loads them as data sees a difference.
- The switch engine runs opcode 1100111 with funct3 != 0 as LUI, and skips SYSTEM words with
  imm12 = 0 and funct3 != 0, which the other engines and the decoder take for ECALL.
- `reserveMmapSpace` accepts empty requests and requests whose end wraps around; an empty one, which
  `_mmap` does not pass on because the host refuses it first, can make a later mapping overlap one in
  use. Space in front of the first area is never reused. `_mmap`
  hands out the address even when the reservation is refused.
- Hiding the second argument needs at least two arguments, or the auxiliary vector is written over the
  first string; the null ends of argv and envp are never written and rely on zeroed memory.

## Model

| member | source | states |
|---|---|---|
| `Runs.TranslationPreservesMeaning` | sbt/codegen/InstructionEmitter.cpp:91-357 | for every option setting, leader set, profile and host: the generated program never runs into undefined behaviour, and it produces a result (registers, memory, host state; by returning or by an exit call) if and only if the guest does, the same one |
| `Runs.GuestIsFollowed` | sbt/codegen/RuntimeEmitter.cpp:44-83 | for every number of guest instructions there is a number of statements after which the program is at that guest state: same registers under pinning, same memory, position of its instruction or the fallback as its mode says |
| `Runs.RunIsMatched` | sbt/codegen/RuntimeEmitter.cpp:18-83 | at or after any number of statements the program is where the guest is after some number of instructions, or has returned or ended with it |
| `Runs.DispatchesAtGuest` | sbt/templates/dispatch_loop_prologue.cpp.in:2-4 | at every dispatch and every entry to the fallback of every run, `ctx.pc` is the pc of a guest state with the same registers and memory, and the dispatch index is its table index, with or without chaining |
| `Runs.TrackingSoundOnEveryPath` | sbt/codegen/InstructionEmitter.cpp:35-53 | whenever in any run control is at the first statement of an instruction, by whatever path, the guest has been at that instruction with the same registers and each register tracked there holds its tracked value |
| `Runs.TranslationsAgree` | sbt/codegen/InstructionEmitter.cpp:244-265 | two translations of the same text produce the same results whatever their pinned registers, chaining, leaders and predictions, for a guest that is well behaved in either mode |
| `Runs.GuestIsInterpreted` | emulator/Interpreter.cpp:324-327 | while the words it runs are in memory, the guest run is the run of the fetch-decode interpreter from the same memory, undecodable words included |
| `Runs.ImageStays` | sbt/codegen/RuntimeEmitter.cpp:120-123 | if no store the guest makes and no call it makes, with the arguments it has, writes into the text, the image is in memory throughout |
| `Original.OriginalRunAlike` | sbt/codegen/RuntimeEmitter.cpp:120-123 | the interpreter on the original text and the guest on its image reach the same registers, pc, host state and other memory after every number of instructions, while no load or call made looks at a word that is not kept and nothing writes the text |
| `Original.LoadOfUndecodableDiffers` | sbt/codegen/RuntimeEmitter.cpp:120-123 | `lw x5, 4(x0)` in front of the word 0xFFFFFFFF loads 0 from the image and 0xFFFFFFFF from the original text |
| `Witnesses.SettingIsMet` | sbt/templates/interpreter_fallback.cpp.in:2-7 | a program with pinned registers and chaining that jumps to a word that is no leader meets the hypotheses under every host, changes from translated code to the fallback, and finishes |
| `Witnesses.RemainderResultsDiffer` | sbt/codegen/InstructionEmitter.cpp:325-326 | a one-instruction program that finishes with 0x80000000 in x5 where the guest finishes with 0 |
| `Witnesses.RelinkResultsDiffer` | sbt/codegen/InstructionEmitter.cpp:238-239 | a program with `jalr x5, 0(x5)` that finishes without the instruction the guest goes on to |
| `Simulation.CodeStep` | sbt/codegen/InstructionEmitter.cpp:91-357 | from the block of an instruction, the program reaches the block (or fallback, or exit) of the guest's next state, or ends as the guest does; only straight-line instructions may take no statement, and no other instruction is entered on the way |
| `Simulation.FallbackStep` | sbt/templates/interpreter_fallback.cpp.in:2-7 | one guest instruction in the fallback is one emulated instruction, and at a leader or at the end registers are loaded and control leaves the loop |
| `Simulation.DispatchLands` | sbt/codegen/RuntimeEmitter.cpp:44-57 | the dispatch pair sends control to the label, the exit or the fallback of the guest's pc |
| `Simulation.PredictionsRun` | sbt/codegen/InstructionEmitter.cpp:244-258 | the hardcoded comparisons either jump to the guest's pc or fall through with nothing changed |
| `Simulation.JalrStep` | sbt/codegen/InstructionEmitter.cpp:237-267 | an indirect jump follows the guest through predictions, chaining or the dispatch loop when rs1 still reads the same |
| `Simulation.LeavesFallback` | sbt/codegen/RuntimeEmitter.cpp:69-82 | leaving the fallback restores the pinned registers and dispatches to the guest's pc |
| `Divergence.RemainderExactly` | sbt/codegen/InstructionEmitter.cpp:321-331 | the block of a register operation does what the interpreters do if and only if it is not an overflowing REM into a real register |
| `Divergence.IndirectTargetExactly` | emulator/Interpreter.cpp:588-596 | the emitted target of JALR is the interpreters' if and only if rd differs from rs1 or rs1 holds pc + 4 |
| `Divergence.ManualTargetExactly` | emulator/Interpreter.cpp:593-594 | JALR goes where section 2.5 of the Unprivileged ISA manual says if and only if the interpreters read the old rs1 less the low bit of the sum: the old rs1 itself when the sum is even, one less when it is odd |
| `Divergence.LowBitWitness` | emulator/Interpreter.cpp:593-594 | a JALR that goes to 1 where the manual says 0 |
| `Divergence.RelinkWitness` | emulator/Interpreter.cpp:593-594 | a JALR that goes to 4 in the interpreters and to 0 in the translation |
| `Divergence.UpperWitness` | sbt/codegen/InstructionEmitter.cpp:271-273 | an AUIPC without a literal and one that overflows |
| `Divergence.SkippedCallWitness` | emulator/Interpreter.cpp:605-610 | the word 0x00001073 exits in all engines but the switch engine, which goes on |
| `Blocks.UpperSumDefined` | sbt/codegen/InstructionEmitter.cpp:271-273 | the emitted AUIPC has a meaning if and only if the immediate is not negative and the sum stays below 2^31, and then it is the guest's sum |
| `Blocks.ComputeComputes` | sbt/codegen/InstructionEmitter.cpp:102-131 | for every aliasing of rd, rs1, rs2 and x0 and every mix of known and unknown operands, the emitted statement assigns the 32-bit guest result (0x80000000 for an overflowing REM) |
| `Blocks.OpStmtComputes` | sbt/codegen/InstructionEmitter.cpp:64-78 | op-assignment, the commuted form and `- rs2` for `0 - rs2` are exact |
| `Blocks.AddImmediateComputes` | sbt/codegen/InstructionEmitter.cpp:132-151 | the rewrites of ADDI, subtraction for negative immediates included, are exact |
| `Blocks.ComputeImmediateComputes` | sbt/codegen/InstructionEmitter.cpp:132-175 | the same for all immediate operations, with int and long literals |
| `Blocks.DivideComputes` | sbt/codegen/InstructionEmitter.cpp:301-340 | the if-chains of DIV, DIVU, REM and REMU assign the guest quotient or remainder, but 0x80000000 for an overflowing REM, without undefined behaviour |
| `Blocks.ProductYields` | sbt/codegen/InstructionEmitter.cpp:289-300 | the 64-bit product expressions yield the guest result without overflow |
| `Blocks.AddressComputes` | sbt/codegen/InstructionEmitter.cpp:55-61 | the address statement assigns the 32-bit sum of base and offset |
| `Blocks.LoadComputes` | sbt/codegen/InstructionEmitter.cpp:176-199 | the load expressions extend the bytes read as the guest load does |
| `Blocks.BranchTestYields` | sbt/codegen/InstructionEmitter.cpp:215-232 | the emitted condition is true exactly when the guest branch is taken |
| `Blocks.OperandStands` | sbt/codegen/InstructionEmitter.cpp:9-45 | operand text, literal or variable, has the value of the guest register |
| `Blocks.SaveGathers` | sbt/codegen/Emitter.cpp:76-82 | storing the pinned registers makes the context hold all guest registers |
| `Blocks.RestoreSpreads` | sbt/codegen/Emitter.cpp:84-90 | loading them makes the variables represent the context again |
| `Straight.StraightBlock` | sbt/codegen/InstructionEmitter.cpp:101-355 | the whole block of every instruction but jumps and branches acts on registers, memory and host as the instruction does |
| `Straight.TrackingSound` | sbt/codegen/InstructionEmitter.cpp:47-53 | across every instruction, each tracked register holds its tracked value afterwards; syscalls write a0 only |
| `Straight.CallBlock` | sbt/codegen/InstructionEmitter.cpp:274-284 | the emitted system call, with a tracked or untracked number, is the guest's |
| `Closure.ClosedExactly` | sbt/analysis/BasicBlocks.cpp:12-24 | every emitted goto names a label that is emitted exactly once if and only if all direct targets and all predicted leaders are leaders in the text |
| `Closure.SlotsClosed` | sbt/codegen/RuntimeEmitter.cpp:18-41 | every dispatch slot names a mark emitted exactly once, a label if and only if its address is a leader; the last slot and falling off the last instruction reach the same exit |
| `Layout.LeaderMark` | sbt/codegen/InstructionEmitter.cpp:93-96 | the label of a leader is emitted once, in front of its instruction |
| `Layout.LabelPlace` | sbt/codegen/InstructionEmitter.cpp:93-96 | every label in the code is a leader's and stands at the start of its instruction |
| `Layout.EndMarks` | sbt/codegen/RuntimeEmitter.cpp:60-83 | EXIT and INVALID are emitted once, after the last instruction |
| `Driver.TranslateText` | sbt/main.cpp:37-64 | the program written is the translation of the decoded text under exactly the leaders found by the analysis |
| `Driver.TranslatableMeans` | sbt/codegen/InstructionEmitter.cpp:215-273 | the hypothesis of the theorems about runs holds if and only if every emitted jump has its label exactly once and every emitted AUIPC sum has a value |
| `Driver.TranslatableExactly` | sbt/analysis/BasicBlocks.cpp:14-24 | with the leaders the analysis finds, that is so if and only if branches, jumps and predicted leaders stay in the text and each AUIPC neither goes down nor overflows |
| `Driver.MoreLeadersSameResults` | sbt/analysis/BasicBlocks.cpp:26-54 | enlarging the leader set, by unaligned data words too, changes no result; only added leaders that are predicted targets must be instruction addresses |
| `Driver.EmitDispatchTable` | sbt/codegen/RuntimeEmitter.cpp:18-41 | one slot per instruction, its label or the fallback, and the exit slot behind them |
| `Driver.EmitDispatchLoopPrologue` | sbt/codegen/RuntimeEmitter.cpp:44-57 | register load, index computation and dispatch, with the loop head after the load |
| `Driver.EmitInterpreterFallback` | sbt/codegen/RuntimeEmitter.cpp:60-83 | the exit block, then the fallback block that closes the loop |
| `Driver.EmitAll` | sbt/main.cpp:59-61 | instruction by instruction the output is the specified code and the constant table the specified tracking |
| `Driver.LoadInstructions` | sbt/codegen/RuntimeEmitter.cpp:120-123 | afterwards memory holds every instruction's kept word at its address, and only memory has changed |
| `Driver.HeldIsKept` | sbt/codegen/RuntimeEmitter.cpp:120-123 | such a memory meets what the theorems ask of the text image |
| `Emitter.InstructionEmitter.EmitInstruction` | sbt/codegen/InstructionEmitter.cpp:91-357 | appends the specified label and statements; the constant table is reset at a leader and updated as specified |
| `Emitter.InstructionEmitter.EmitBody` | sbt/codegen/InstructionEmitter.cpp:101-354 | the same for the switch over instruction types |
| `Emitter.InstructionEmitter.Reg` | sbt/codegen/InstructionEmitter.cpp:9-45 | a literal for x0 and tracked sources, else the pinned or context variable |
| `Emitter.InstructionEmitter.EmitTo` | sbt/codegen/InstructionEmitter.cpp:47-53 | drops assignments to x0 and forgets rd |
| `Emitter.InstructionEmitter.EmitOp` | sbt/codegen/InstructionEmitter.cpp:64-78 | chooses among the four forms by aliasing, operand order and x0 |
| `Emitter.InstructionEmitter.EmitLoadSaveAddress` | sbt/codegen/InstructionEmitter.cpp:55-61 | the address statement, without a zero offset |
| `Emitter.InstructionEmitter.Track` | sbt/codegen/InstructionEmitter.cpp:80-83 | one register becomes known, nothing else changes |
| `Emitter.InstructionEmitter.ResetTracked` | sbt/codegen/InstructionEmitter.cpp:85-89 | nothing is known, values stay |
| `Emitter.InstructionEmitter.EmitPredictions` | sbt/codegen/InstructionEmitter.cpp:244-258 | direct jumps to those of the three most frequent destinations that are leaders, most frequent first |
| `Emitter.HottestAreHottest` | sbt/codegen/InstructionEmitter.cpp:247-257 | the destinations chosen are a part of the profile in order of frequency, as many as asked for, and nothing left out is more frequent |
| `Emitter.MaxElement` | sbt/codegen/InstructionEmitter.cpp:249-250 | the first of the largest |
| `Emitter.Output.EmitRegisterStore` | sbt/codegen/Emitter.cpp:76-82 | one assignment per pinned register, none without pinning |
| `Emitter.Output.EmitRegisterLoad` | sbt/codegen/Emitter.cpp:84-90 | the reverse assignments |
| `Emitter.Output.GetHostRegister` | sbt/codegen/Emitter.cpp:92-98 | found if and only if the register is in the map |
| `BasicBlocks.GetLeaders` | sbt/analysis/BasicBlocks.cpp:5-37 | an address is a leader if and only if it is the first instruction's, a direct target, follows a jump or branch, or is a profiled target when profiles are used; nothing is for an empty program |
| `BasicBlocks.HarvestStaticData` | sbt/analysis/BasicBlocks.cpp:39-57 | adds exactly the data words that are addresses in the text; the count is the number of new leaders |
| `Interpreter.Context.RunInstruction` | emulator/Interpreter.cpp:13-322 | for every word and state the chained-if step is decoding followed by the meaning of the instruction |
| `Interpreter.Context.RunInstructionPredecoded` | emulator/Interpreter.cpp:634-912 | the predecoded step is the meaning of the instruction |
| `Interpreter.Context.RunInstructionSwitch` | emulator/Interpreter.cpp:329-632 | the switch step is that meaning except on the two deviating word classes, where it is LUI or nothing |
| `Agreement.SwitchAgreesExactly` | emulator/Interpreter.cpp:588-610 | the switch engine agrees with decoding on all states and hosts if and only if the word is in neither class (JALR opcode with funct3 != 0 and rd != x0; SYSTEM with imm12 = 0 and funct3 != 0) |
| `Agreement.FallbackExactly` | sbt/templates/interpreter_fallback.cpp.in:2-7 | the switch engine on the kept word is the predecoded step of the original word, undecodable words included, if and only if the word is not a skipped call |
| `Agreement.KeptWordExactly` | sbt/codegen/RuntimeEmitter.cpp:120-123 | the image keeps a word if and only if it decodes or is zero |
| `Isa.DecodeByTables` | lib/decoding/Decoder.cpp:75-119 | the first match in table order is the one instruction the word encodes, INVALID if there is none |
| `Isa.RowKind` | lib/decoding/Instructions.h:86-160 | at most one row matches any word, so table order is irrelevant |
| `Isa.DecodeIsLossless` | lib/decoding/Decoder.cpp:85-113 | for all types but LR, SC, ECALL and EBREAK the word is recovered from type, registers and immediate |
| `Isa.IImmIsField` | lib/decoding/Decoder.cpp:31-33 | the sign-extended I field of section 2.3 |
| `Isa.SImmIsField` | lib/decoding/Decoder.cpp:35-41 | the sign-extended S field |
| `Isa.BImmIsField` | lib/decoding/Decoder.cpp:43-51 | the sign-extended B field |
| `Isa.JImmIsField` | lib/decoding/Decoder.cpp:53-61 | the sign-extended J field |
| `Isa.UImmIsField` | lib/decoding/Decoder.cpp:63-65 | the sign-extended U field |
| `Predecode.CacheCoherence` | emulator/main.cpp:71-89 | while the run stays in text that its stores and the calls it makes do not write, n steps from the table reach the state of n fetch-decode steps, for every n, and the text is still in memory |
| `Threaded.RunThreaded` | emulator/Interpreter.cpp:936-1259 | n dispatches of the threaded engine, from handler to handler, are n steps from the table, for every table and every n |
| `Threaded.Handle` | emulator/Interpreter.cpp:1001-1259 | every handler does what its instruction means, steps pc, clears x0 and fetches the entry of the new pc |
| `Threaded.Dispatch` | emulator/Interpreter.cpp:917-924 | pc + 4, x0 zero, and the entry at the new index, or none past the table |
| `Threaded.RunPredecodedText` | emulator/main.cpp:71-89 | on a program that leaves its text alone, n threaded dispatches from the table built from the text, n cached steps and n fetch-decode steps reach the same state |
| `Predecode.BuildTable` | emulator/main.cpp:71-82 | slot k of the table is word k of the text, decoded |
| `Predecode.DecodeSection` | lib/elf/ElfBinary.h:30-50 | the listing is the decoded words at their addresses, in order |
| `Predecode.StepKeepsText` | emulator/Interpreter.cpp:634-912 | a step whose store, or whose call with its own arguments, misses the text leaves the text in memory |
| `Arithmetic.UnsignedProduct` | emulator/Interpreter.cpp:264-267 | MULHU and MUL are the halves of the exact unsigned product |
| `Arithmetic.SignedSignedProduct` | emulator/Interpreter.cpp:254-257 | MULH and MUL are the halves of the exact signed product, which fits 64 bits |
| `Arithmetic.SignedUnsignedProduct` | emulator/Interpreter.cpp:259-262 | MULHSU and MUL are the halves of the exact mixed product in spite of the unsigned multiplication |
| `Arithmetic.SignedDivision` | emulator/Interpreter.cpp:269-298 | DIV times divisor plus REM is the dividend modulo 2^32 for all operands |
| `Arithmetic.SignedDivisionExact` | emulator/Interpreter.cpp:269-298 | away from zero divisors and overflow the division is exact and truncating, the remainder has the sign of the dividend |
| `Arithmetic.UnsignedDivision` | emulator/Interpreter.cpp:280-306 | the same for DIVU and REMU |
| `RegisterUse.MaskCoversReads` | lib/decoding/Instructions.h:176-210 | two states that agree on pc, memory and the registers the mask names step to the same outcome, pc, memory and written value |
| `RegisterUse.MaskCoversWrites` | lib/decoding/Instructions.h:176-210 | only rd can change, and only if the mask says so; x0 is zero after every step |
| `RegisterUse.BuildByType` | lib/decoding/Instructions.h:188-197 | the table by type is the mask of each type |
| `RegisterUse.BuildByOpcode` | lib/decoding/Instructions.h:199-206 | the table by opcode gives every decodable type the same mask, and none to other opcodes |
| `Arena.ArenaStaysWellFormed` | lib/runtime/Memory.cpp:129-169 | over every sequence of sensible requests the areas stay sorted, page-aligned, disjoint and inside the arena |
| `Arena.MapKeepsExactly` | lib/runtime/Memory.cpp:146-157 | a request keeps that invariant if and only if it is not empty and address plus size does not wrap around |
| `Arena.FirstFitCorrect` | lib/runtime/Memory.cpp:129-144 | the address is aligned and in the arena, its block is apart from all areas if it ends in the arena, and if it does not then no space behind any area fits |
| `Arena.GapDoesNotUnderflow` | lib/runtime/Memory.cpp:138-140 | the unsigned gap computation is the mathematical one |
| `Arena.RefusalExactly` | lib/runtime/Memory.cpp:146-152 | a sensible request is refused if and only if no space behind an area is large enough |
| `Arena.UnmapExactly` | lib/runtime/Memory.cpp:159-169 | freeing succeeds if and only if that very area is mapped, and removes that one |
| `Arena.UnmapUndoesMap` | lib/runtime/Memory.cpp:146-169 | freeing what was just reserved gives back the areas there were |
| `Arena.PageAlignRoundsUp` | lib/runtime/Memory.cpp:117-119 | the mask trick rounds up to a multiple of the page size |
| `Arena.AlignUpLeast` | lib/runtime/Memory.cpp:117-119 | that multiple is the least one not below the address |
| `Closure.TranslatableCloses` | sbt/main.cpp:56-63 | a program the theorems apply to has all its labels |
| `Arena.EmptyMappingOverlaps` | lib/runtime/Memory.cpp:138-140 | an empty reservation, an input to `reserveMmapSpace` that `_mmap` does not pass on, makes the next one land on an area in use |
| `Arena.HugeMappingAccepted` | lib/runtime/Memory.cpp:149-151 | a request whose end wraps around is accepted |
| `Arena.LeadingSpaceLost` | lib/runtime/Memory.cpp:130-141 | a request that fits in front of the first area is refused |
| `Arena.Memory.GetMmapAddress` | lib/runtime/Memory.cpp:129-144 | the iterator loop is the first-fit search |
| `Arena.Memory.ReserveMmapSpace` | lib/runtime/Memory.cpp:146-157 | on success the areas are the old ones and the new one, sorted by base; on refusal they are unchanged |
| `Arena.Memory.FreeMmapSpace` | lib/runtime/Memory.cpp:159-169 | removes the first area with the base if its size matches |
| `Arena.Memory.Mmap` | lib/runtime/syscall.h:76-98 | the address handed to the guest is the base then reserved; it is handed out also when the reservation is refused |
| `Arena.RunRequests` | lib/runtime/Memory.cpp:146-169 | any sequence of sensible requests on the object has the specified effect and keeps the invariant |
| `Manual.BitwiseSums` | emulator/Interpreter.cpp:80-94 | for all integers OR and AND add up to the operands, and so do XOR and twice AND |
| `Manual.BitwiseByDigits` | emulator/Interpreter.cpp:80-94 | for all integers each bit of AND, OR and XOR is both, either, or exactly one of the operands' bits |
| `Manual.LogicSums` | emulator/Interpreter.cpp:80-94 | the same sums for the instructions AND, OR and XOR |
| `Manual.LogicByDigits` | emulator/Interpreter.cpp:80-94 | the instructions AND, OR and XOR, bit by bit |
| `Manual.ShiftsMoveDigits` | emulator/Interpreter.cpp:95-110 | each bit of SLL, SRL and SRA is the bit so many places away, the amount being the low five bits of the second operand; zeros, or the sign bit, come in |
| `Manual.ComparisonValues` | emulator/Interpreter.cpp:111-120 | SLTU is 1 or 0; SLT is SLTU for equal sign bits and the sign bit of the first operand otherwise |
| `Manual.QuotientByZero` | emulator/Interpreter.cpp:269-287 | DIV and DIVU by zero give 0xFFFFFFFF, as section 7.2 says |
| `Manual.RemainderByZero` | emulator/Interpreter.cpp:288-306 | REM and REMU by zero give the dividend |
| `Manual.DivisionOverflow` | emulator/Interpreter.cpp:272-293 | the overflowing DIV gives 0x80000000 and REM 0 |
| `Manual.SignedBranches` | emulator/Interpreter.cpp:186-199 | BLT is taken where SLT gives 1, BGE where it gives 0 |
| `Manual.UnsignedBranches` | emulator/Interpreter.cpp:200-211 | BLTU is taken where SLTU gives 1, BGEU where it gives 0 |
| `Manual.EqualityBranches` | emulator/Interpreter.cpp:172-185 | BEQ is taken where BGEU is both ways round, BNE where BLTU is one way round |
| `Manual.NextPc` | emulator/Interpreter.cpp:171-227 | after any instruction pc is pc plus immediate, the JALR sum, or pc + 4, in spite of the subtracted 4; x0 is zero |
| `Manual.Links` | emulator/Interpreter.cpp:213-227 | JAL and JALR leave pc + 4 in rd |
| `Manual.UpperAndLower` | emulator/Interpreter.cpp:229-238 | LUI then ADDI leaves the sum of both parts in the register, AUIPC then ADDI that sum above the pc of the AUIPC |
| `Manual.AtomicsAreAccesses` | emulator/Interpreter.cpp:307-315 | LR.W is LW without offset; SC.W is SW and then reports success |
| `Manual.StoredIsLoaded` | lib/runtime/Memory.h:27-37 | one, two and four bytes written are read back, cut to the size |
| `Manual.LoadsAreLittleEndian` | lib/runtime/Memory.h:32-37 | a halfword is its lower byte and 256 times the byte behind it, a word its lower half and 65536 times the half behind it |
| `Manual.StoresNothingElse` | lib/runtime/Memory.h:27-31 | a write changes no byte outside its own |
| `Manual.BytesSignExtend` | emulator/Interpreter.cpp:121-132 | LB gives the one signed 8-bit number with the byte read, LBU the byte |
| `Manual.HalvesSignExtend` | emulator/Interpreter.cpp:133-144 | LH gives the one signed 16-bit number with the halfword read, LHU the halfword |
| `Manual.CallRegisters` | lib/runtime/syscall.cpp:11-13 | a guest call passes x17 as its number and puts the answer into x10 and no other register |
| `Manual.EmittedCallRegisters` | sbt/codegen/InstructionEmitter.cpp:274-284 | so does the emitted call, with the literal number if it has one |
| `Manual.EmittedCallNumber` | sbt/codegen/InstructionEmitter.cpp:276-281 | the literal number is the value tracked for x17 |
| `Manual.RegisterFieldDigits` | lib/decoding/Decoder.cpp:21-29 | rd, rs1 and rs2 are bits 7-11, 15-19 and 20-24 of the word |
| `Manual.IImmediateDigits` | lib/decoding/Decoder.cpp:31-33 | each bit of the I immediate is the word's bit that section 2.3 names, bit 31 from its sign on |
| `Manual.SImmediateDigits` | lib/decoding/Decoder.cpp:35-41 | the same for S |
| `Manual.BImmediateDigits` | lib/decoding/Decoder.cpp:43-51 | the same for B, with bit 11 from bit 7 and bit 0 zero |
| `Manual.JImmediateDigits` | lib/decoding/Decoder.cpp:53-61 | the same for J, with bit 11 from bit 20 and bit 0 zero |
| `Manual.UImmediateDigits` | lib/decoding/Decoder.cpp:63-65 | the same for U |
| `Leaders.LeadersExactly` | sbt/analysis/BasicBlocks.cpp:5-57 | an address is a leader if and only if it is the start of a text that is not empty, the target of a branch or JAL, behind a branch, JAL or JALR, a profiled destination when profiles are used (all of a nonempty text), or a data word inside the text |
| `Leaders.BehindJumpsLead` | sbt/analysis/BasicBlocks.cpp:14-24 | the instruction behind every branch, JAL and JALR is a leader, and a dispatch to its address, or to the end of the text behind the last one, does not go to the fallback |
| `Leaders.ReturnsStayTranslated` | sbt/analysis/BasicBlocks.cpp:20-22 | whatever instruction continues behind a branch, jump or call of the text, in either mode, continues in translated code |
| `Known.KnownExactly` | sbt/codegen/InstructionEmitter.cpp:80-96 | a register is known at an instruction, with a value, if and only if an ADDI of a nonzero immediate from x0 in front of it gives that value and nothing in between writes the register or is a leader |
| `Known.NumberedCallExactly` | sbt/codegen/InstructionEmitter.cpp:274-284 | a call is emitted with a literal number if and only if x17 is so known and the call is no leader |
| `Known.LiteralOperandExactly` | sbt/codegen/InstructionEmitter.cpp:9-45 | a source register but x0 is emitted as a literal if and only if it is so known and the instruction is no leader |
| `Known.PredictionCount` | sbt/codegen/InstructionEmitter.cpp:244-258 | with prediction all profiled destinations of a jump are predicted, up to three; without it none |
| `Known.ChainingExactly` | sbt/codegen/InstructionEmitter.cpp:260-265 | only indirect jumps dispatch: in place with chaining, by going back to the loop without |
| `RegisterUse.MaskByClass` | lib/decoding/Instructions.h:176-197 | the mask of every type: which of rs1, rs2 and rd are in it |
| `StackImage.LoadAux` | lib/runtime/Memory.cpp:33-103 | writes argc, both pointer tables with their strings and the auxiliary vector, which ends where the strings begin and has the page size the host's vector has under tag 6, or 0; nothing outside [sp, DATA_SIZE) and neither null end is written |
| `StackImage.ImageRoundTripExactly` | lib/runtime/syscall.h:146-158 | after loadAux, walking argv and envp gives back the visible strings in order if and only if memory was zero at the two ends |
| `StackImage.AuxReadsBack` | lib/runtime/Memory.cpp:96-102 | a guest that looks behind both arrays for tag 6 finds the page size, cut to 32 bits, and for any other tag nothing |
| `StackImage.GetAuxValue` | lib/runtime/Memory.cpp:15-24 | the loop gives the value the vector has for a tag |
| `StackImage.HostValueIsFirst` | lib/runtime/Memory.cpp:15-24 | that is the value of the first pair with the tag, 0 if the end comes first |
| `StackImage.VisibleHides` | lib/runtime/Memory.cpp:71-73 | hiding leaves the first argument and moves those behind the second one place forward |
| `StackImage.OnesCannotBeWalked` | lib/runtime/Memory.cpp:82-94 | an image laid out on memory of ones is never walked back |
| `StackImage.TranslatePointerArray` | lib/runtime/syscall.h:146-158 | the entries up to the first zero word, null for a null array, out of bounds if there is none |
| `StackImage.WriteStrings` | lib/runtime/Memory.cpp:71-92 | one pointer and one string per visible entry, nothing else |
| `StackImage.VectorEndsExactly` | lib/runtime/Memory.cpp:33-37 | the auxiliary vector ends in front of the strings if and only if there is a second argument to hide |
| `StackImage.WriteAuxValue` | lib/runtime/Memory.cpp:26-30 | the two words of a pair, nothing else |
| `Machine.WordRoundTrip` | lib/runtime/Memory.h:27-37 | a word written is read back |

## Left out

- Threaded.RunThreaded: the source's loop is endless; the model observes it after n dispatches, for every n.
- Driver.TranslateText: the output is a syntax tree, not characters; indentation, templates and printing are not modelled.
- StackImage.LoadAux: argument lists that do not fit below DATA_SIZE, and hiding a second argument that is not there, are excluded; the host's auxiliary vector is a parameter, given as the pairs behind its environment.
- Arena.Memory.ReserveMmapSpace: among areas with equal bases the order after sorting is left open, as it is in the source.
- Arena.Memory.Mmap: the debug assertion on alignment and the translation of errno are not modelled; with MAP_FIXED the host either fails or maps at the address asked for.
- Host system calls are one arbitrary function of number, registers, memory and host state that writes memory and a0 or exits; files, clocks, processes and brk are not modelled.
- ELF parsing: the text is one contiguous, word-aligned section; several sections, gaps between them and `computeTextBounds` are not modelled.
- Self-modifying code: a word the fallback runs must be the one the program put there; translated code and the table do not see changes of the text, as in the source.
- Accesses outside the memory array are undefined behaviour in the source and end the theorems' hypotheses.
- Guest loads of undecodable text words see the generated program's image; `Original.OriginalRunAlike` excludes runs that make one.
- Profiling counters, timers, JSON profiles, command line and benchmark tooling have no effect on guest state.
- Explicit host register variables are ordinary variables; the host compiler is not modelled.
