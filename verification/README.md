# Proofs about the Ibex core, its verification code and the accelerator driver

A Dafny model of the parts of the repository where a small specification is met by an indirect
implementation, or where a property only holds over whole runs.

- **Bit-manipulation datapath** (`Bits`, `PrefixCounter`, `BitCounting`, `Butterfly`, `Shifter`,
  `MachineWords`, `Gf2Polynomials`, `CarrylessMultiply`, `Crc`, `Shuffle`). The prefix counter's
  adder tree, bit deposit and extract through a butterfly network steered by two intermediate
  registers, rotates and funnel shifts through one 33-bit shifter, carry-less multiplication by an
  XOR tree, CRC by two-cycle Barrett reduction, and the index-permuting shuffles. Each is proved
  equal to a one-line definition for all operands.
- **Pipeline controller** (`Controller`, `ControllerLaws`, `Pipeline`, `PipelineRuns`). `Controller`
  gives every state of the machine a row of signals and proves a class that runs the combinational
  block with its defaults and overrides against those rows. `ControllerLaws` says what the signals
  mean: causes by their architectural numbers, priorities, and when exactly each signal is high. `Pipeline` puts it among the IF/ID register, the ID
  stage's stall and completion logic, the writeback slot and the load-store unit's responses; every
  other signal is free. `PipelineRuns` proves what holds over all runs from reset, with and without
  writeback stage and RV32E.
- **Co-simulation memory checker** (`CosimMatcher`, `CosimLedger`, `CosimVerdicts`). The queue of
  observed bus accesses, a ledger that proves conservation of bytes in both directions, and the exact
  condition of each answer: nothing is accepted that does not match, nothing that matches is
  rejected, and a bus error is answered exactly where the DUT saw one.
- **PMP register model** (`PmpRegisters`, `PmpModel`, `PmpLocking`). Registers whose write masks
  depend on one another, and the proof that locked stays locked.
- **Compressed instructions** (`CompressedDecoder`, `CompressedMeaning`, `BranchPredictor`). The
  expansion preserves meaning and commutes with branch prediction. The listing of compressed
  encodings follows sections 16.2 to 16.8 of the RISC-V Unprivileged ISA.
- **Bare-metal runtime** (`Timer`, `NumberFormat`). The 64-bit timer behind 32-bit registers, and
  the integer formatter with its decimal reader.
- **Linux driver** (`DmaDriver`, `DmaSessions`, `DmaCompletion`). The life of the four DMA buffers,
  where the hardware works when it is started, and whether it can still be at work when they are freed.

`Binary`, `BvBits` and `Options` are shared helpers.

## Where code and documentation disagree

The model follows the code.

- `ibex-soc/rtl/ibex_alu.sv:853-949` describes the CRC quotient constant as the low 32 bits of the
  quotient of x^64. The stored constants keep the leading coefficient and drop the last one
  (`Crc.StoredQuotient`), and are not those low bits (`Crc.StoredIsNotLow`).
- `ibex-soc/rtl/ibex_controller.sv:921` asserts that a mispredicted branch is always cleared from ID
  in the same cycle. With writeback stage and branch predictor it is not while an older memory
  access is unanswered. `PipelineRuns.MispredictWithoutClear` gives a sequence of cycles from reset,
  `PipelineRuns.MispredictClears` the exact condition.
- Section 3.7.1 of the RISC-V Privileged ISA locks an address register through the following
  region only when that region is itself locked, and Smepmp lifts locks while RLB is set.
  `ibex-soc/dv/cs_registers/model/base_register.cc:206-234` locks it whenever the following region
  is top-of-range, and whatever RLB is. `PmpLocking.AddrWrite` states the rule of the code,
  `PmpLocking.AddrAgrees` and `PmpLocking.LocksMore` when exactly it ends as the standard says, and
  `PmpLocking.DiffersBelowTor` and `PmpLocking.DiffersUnderBypass` reach states in which it does not.
- `linux_driver/systolic_array_main.c:182-184` starts the hardware without programming it, so after a
  new probe it may work on blocks that were freed with the previous binding
  (`DmaSessions.StartOnFreedBlocks`). `DmaSessions.StartSafe` gives the exact condition under which
  it does not. `linux_driver/systolic_array_main.c:297-305` frees the buffers without waiting for the
  hardware (`DmaCompletion.TimeoutFreesUnderWork`); `DmaCompletion.RemoveSafe` says when that is safe.
- `ibex-soc/rtl/ibex_decoder.sv:652-665` keeps the illegal instructions it knows of from the
  load-store unit, but the register check of RV32E comes later, and without the writeback stage
  nothing else holds a rejected load or store back. Its request outlives it, and a fault of that
  request can be lost (`PipelineRuns.FaultForgotten`). `PipelineRuns.NothingLeaks` and
  `PipelineRuns.NoFaultIsLost` say in exactly which configurations neither happens.
- `ibex-soc/examples/sw/benchmarks/coremark/ibex/ee_printf.c:36` adds the character code before it
  subtracts that of zero, so numbers close to 2^31 pass through a wrapped sum;
  `NumberFormat.SkipAtoi` models the wrap-around and shows the result is still exact, and
  `NumberFormat.NoSumOverflows` says for which numbers there is none.

## Model

| member | source | states |
|---|---|---|
| `PrefixCounter.AddRow` | ibex-soc/rtl/ibex_alu.sv:509-540 | one row of the adder tree, updated in place: every entry on the row gains the entry `dist` below it, all others keep their value |
| `PrefixCounter.PairSums` | ibex-soc/rtl/ibex_alu.sv:508-512 | the first row leaves at every odd index the sum of two neighbouring bits |
| `PrefixCounter.RisingRow` | ibex-soc/rtl/ibex_alu.sv:513-526 | a row of the primary tree doubles the span each finished entry covers |
| `PrefixCounter.FallingRow` | ibex-soc/rtl/ibex_alu.sv:530-540 | a row of the intermediate tree halves the distance between finished prefix counts |
| `PrefixCounter.PrimaryTree` | ibex-soc/rtl/ibex_alu.sv:508-526 | after the primary tree every entry holds the count over its power-of-two window |
| `PrefixCounter.IntermediateTree` | ibex-soc/rtl/ibex_alu.sv:526-540 | after the intermediate tree every odd entry is a complete prefix count |
| `PrefixCounter.PrefixCount` | ibex-soc/rtl/ibex_alu.sv:507-546 | after all in-place stages entry i is the number of set bits in positions 0..i, for every i |
| `BitCounting.SmearStep` | ibex-soc/rtl/ibex_alu.sv:446-452 | OR-ing a word with itself shifted doubles the window each bit summarises |
| `BitCounting.TrailingMask` | ibex-soc/rtl/ibex_alu.sv:446-454 | the five smearing steps and the inversion cover exactly the positions below the lowest set bit |
| `BitCounting.TrailingCount` | ibex-soc/rtl/ibex_alu.sv:440-464 | counting that cover gives the trailing-zero count, 32 for zero |
| `BitCounting.BitCount` | ibex-soc/rtl/ibex_alu.sv:435-546 | CPOP is the population count, CTZ and CLZ the trailing and leading zero counts, 32 for zero |
| `Butterfly.Survival` | ibex-soc/rtl/ibex_alu.sv:1052-1103 | squeezing the prefix counts into two 32-bit registers keeps, for each stage, every count bit its masks read |
| `Butterfly.MasksAt` | ibex-soc/rtl/ibex_alu.sv:1115-1137 | the left and right masks select exactly the two halves of each exchanged pair |
| `Butterfly.StageMoves` | ibex-soc/rtl/ibex_alu.sv:1142-1144 | a mask-and-shift stage moves whole bits: position p receives the bit of its partner or its own |
| `Butterfly.SourceInvolution` | ibex-soc/rtl/ibex_alu.sv:1139-1187 | a stage undoes itself |
| `Butterfly.RotateAndComplement` | ibex-soc/rtl/ibex_alu.sv:1118-1128 | rotating a half-width of ones by a count, complementing what wraps, marks the pairs whose ranks sit in the wrong half |
| `Butterfly.RouteIsRank` | ibex-soc/rtl/ibex_alu.sv:1113-1162 | through all five stages a set mask position is fed from its rank in the mask |
| `Butterfly.RoutesInverse` | ibex-soc/rtl/ibex_alu.sv:1139-1187 | the inverse network routes every position back |
| `Butterfly.RegistersSteerAll` | ibex-soc/rtl/ibex_alu.sv:1052-1137 | what survives in the two registers steers all five stages for every mask |
| `Butterfly.FirstCycle` | ibex-soc/rtl/ibex_alu.sv:1052-1075 | the first cycle stores the packed prefix counts of the mask |
| `Butterfly.ButterflyResult` | ibex-soc/rtl/ibex_alu.sv:1139-1163 | the second cycle of BDECOMPRESS runs the five stages outwards in and masks the result |
| `Butterfly.InvButterflyResult` | ibex-soc/rtl/ibex_alu.sv:1165-1187 | the second cycle of BCOMPRESS masks the operand and runs the stages inwards out |
| `Butterfly.BDecompress` | ibex-soc/rtl/ibex_alu.sv:1052-1163 | two-cycle BDECOMPRESS puts value bit rank(p) at every set mask position p and zero elsewhere |
| `Butterfly.BCompress` | ibex-soc/rtl/ibex_alu.sv:1052-1187 | two-cycle BCOMPRESS gathers the masked bits at the bottom in order |
| `Butterfly.DepositAfterExtract` | ibex-soc/rtl/ibex_alu.sv:1052-1187 | decompress after compress is value AND mask |
| `Butterfly.ExtractAfterDeposit` | ibex-soc/rtl/ibex_alu.sv:1052-1187 | compress after decompress keeps exactly the low popcount(mask) bits |
| `Shifter.ShiftResultBit` | ibex-soc/rtl/ibex_alu.sv:328-355 | reverse, 33-bit right shift, reverse is a true left shift; without reversal a right shift with the right fill |
| `Shifter.SingleCycle` | ibex-soc/rtl/ibex_alu.sv:277-355 | for the number n that the five low bits of the amount spell in binary, SLL, SRL, SRA, SLO and SRO shift by n |
| `Shifter.RotateTwoCycles` | ibex-soc/rtl/ibex_alu.sv:1227-1240 | for the number n that the five low bits of the amount spell, two-cycle ROL and ROR rotate by n, 0 included |
| `Shifter.FunnelTwoCycles` | ibex-soc/rtl/ibex_alu.sv:179-355 | for the number n that the six low bits of the amount spell, two-cycle FSL and FSR give the 32-bit window at n of the 64-bit concatenation |
| `Shifter.Low5Reads` | ibex-soc/rtl/ibex_alu.sv:282-290 | the amount read by the shifter is the number its five low bits spell |
| `Shifter.SpellsSome` | ibex-soc/rtl/ibex_alu.sv:282-290 | every stretch of bits spells a number, so the three theorems cover every operand |
| `Shifter.ShiftBits` | ibex-soc/rtl/ibex_alu.sv:328-355 | each result bit of the five single-cycle shifts: the operand bit n places away, or the operation's own filling |
| `Shifter.RotateBits` | ibex-soc/rtl/ibex_alu.sv:1227-1240 | each result bit of the two rotates |
| `Shifter.FunnelBits` | ibex-soc/rtl/ibex_alu.sv:179-355 | each result bit of the two funnel shifts, which operand it comes from included |
| `CarrylessMultiply.RawBit` | ibex-soc/rtl/ibex_alu.sv:951-971 | bit k of the five-level XOR tree is the parity of the products of bit pairs that sum to k |
| `CarrylessMultiply.ClmulIsProduct` | ibex-soc/rtl/ibex_alu.sv:951-985 | bit i of CLMUL, CLMULR and CLMULH is coefficient i, i + 31 and i + 32 of the carry-less product of the operands |
| `Gf2Polynomials.RemainderUnique` | ibex-soc/rtl/ibex_alu.sv:862-870 | a polynomial of low degree congruent to a dividend is its only remainder |
| `Gf2Polynomials.BarrettExact` | ibex-soc/rtl/ibex_alu.sv:866-882 | Barrett reduction over GF(2)[x] with the truncated quotient constant is exact, without a correction step |
| `Crc.Quotient` | ibex-soc/rtl/ibex_alu.sv:903-908 | the stored constants are 31 digits of the bit-serial division by the reflected polynomial |
| `Crc.StoredQuotient` | ibex-soc/rtl/ibex_alu.sv:880-908 | each stored constant is, reversed, the quotient of x^64 by the polynomial with its top coefficient kept and its last one dropped |
| `Crc.StoredIsNotLow` | ibex-soc/rtl/ibex_alu.sv:871-874 | for both polynomials the stored constant is not the low 32 coefficients of that quotient |
| `Crc.FirstCycleQuotient` | ibex-soc/rtl/ibex_alu.sv:929-949 | what the first cycle stores is the Barrett quotient |
| `Crc.SecondCycleValue` | ibex-soc/rtl/ibex_alu.sv:1242-1256 | what the second cycle returns, as a polynomial |
| `Crc.TwoCyclesDivide` | ibex-soc/rtl/ibex_alu.sv:862-949 | the two multiplications leave the remainder of x^n times the reflected operand |
| `Crc.CrcTwoCycles` | ibex-soc/rtl/ibex_alu.sv:853-949 | for every operand and all six operations the two cycles equal 8, 16 or 32 bit-serial CRC steps |
| `Crc.CrcInstructions` | ibex-soc/rtl/ibex_alu.sv:853-949 | CRC32.B/H/W run 8, 16 and 32 steps of the register shifting right with polynomial 0xedb88320, CRC32C.B/H/W with 0x82f63b78 |
| `Shuffle.ReverseUnit` | ibex-soc/rtl/ibex_alu.sv:608-642 | GREV takes bit i from bit i xor k, GORC sets bit i exactly when some bit whose index differs from i only within k is set |
| `Shuffle.GrevMoves` | ibex-soc/rtl/ibex_alu.sv:608-642 | GREV moves bit i to bit i xor k |
| `Shuffle.GrevTwice` | ibex-soc/rtl/ibex_alu.sv:608-642 | GREV is its own inverse |
| `Shuffle.GorcGathers` | ibex-soc/rtl/ibex_alu.sv:608-642 | GORC sets bit i exactly when some bit whose index differs from i only within k is set |
| `Shuffle.ShuffleUnit` | ibex-soc/rtl/ibex_alu.sv:663-730 | SHFL brings every bit from its origin under the index exchanges, UNSHFL takes every bit back there |
| `Shuffle.UnshflIsReverse` | ibex-soc/rtl/ibex_alu.sv:654-730 | between two index-reversing flips the same stages act as the shuffle stages backwards |
| `Shuffle.ShuffleInverse` | ibex-soc/rtl/ibex_alu.sv:654-730 | UNSHFL undoes SHFL and SHFL undoes UNSHFL, for every operand and mode |
| `Shuffle.ShflMoves` | ibex-soc/rtl/ibex_alu.sv:698-717 | every bit of a shuffled word comes from the index with neighbouring index bits exchanged, stage by stage |
| `Shuffle.ShflZips` | ibex-soc/rtl/ibex_alu.sv:698-717 | with all stages on SHFL interleaves the two half words |
| `Shuffle.SingleStages` | ibex-soc/rtl/ibex_alu.sv:698-717 | each mode bit alone exchanges the two middle quarters of every block of 32, 16, 8 or 4 bits |
| `Controller.Prioritise` | ibex-soc/rtl/ibex_controller.sv:239-302 | the if-chain raises exactly the source that no raised source outranks, memory faults first with a writeback stage and last without |
| `Controller.OneWinner` | ibex-soc/rtl/ibex_controller.sv:239-302 | at most one priority signal is high |
| `Controller.EncodeFast` | ibex-soc/rtl/ibex_controller.sv:416-425 | the downward loop finds the lowest raised fast interrupt |
| `Controller.Doze` | ibex-soc/rtl/ibex_controller.sv:495-559 | RESET, BOOT_SET, WAIT_SLEEP, SLEEP and FIRST_FETCH drive the signals of their rows |
| `Controller.Run` | ibex-soc/rtl/ibex_controller.sv:561-635 | DECODE, with its defaults and overrides, drives the signals of its row |
| `Controller.TakeIrq` | ibex-soc/rtl/ibex_controller.sv:637-674 | IRQ_TAKEN reports NMI before fast, external, software and timer interrupts and enters NMI mode |
| `Controller.TakeDebug` | ibex-soc/rtl/ibex_controller.sv:676-726 | both debug entry states flush, jump, and save what they have to |
| `Controller.Explain` | ibex-soc/rtl/ibex_controller.sv:757-796 | the exception case reports cause and value of the source that has priority |
| `Controller.FlushPipe` | ibex-soc/rtl/ibex_controller.sv:728-831 | FLUSH takes the exception or the special instruction and lets debug entry override |
| `Controller.Latch` | ibex-soc/rtl/ibex_controller.sv:312-357 | pending integrity error and its address: recorded when none is pending, kept until handed over |
| `Controller.Clock` | ibex-soc/rtl/ibex_controller.sv:873-896 | all registers take their next values |
| `Controller.Machine.constructor` | ibex-soc/rtl/ibex_controller.sv:873-886 | reset values of the registers |
| `Controller.Machine.Step` | ibex-soc/rtl/ibex_controller.sv:152-896 | one clock cycle of the whole controller: next registers and outputs are those of the specification |
| `Controller.EnteringNmi` | ibex-soc/rtl/ibex_controller.sv:323-327 | entering_nmi is high exactly in cycles in which an NMI is taken |
| `ControllerLaws.TakesInterrupt` | ibex-soc/rtl/ibex_controller.sv:637-674 | exactly when IRQ_TAKEN takes an interrupt, and what it saves, keeps and changes |
| `ControllerLaws.InterruptReport` | ibex-soc/rtl/ibex_controller.sv:647-670 | the cause by its architectural number: 31 for the external NMI, the internal cause with the recorded address, else 16 + k, 11 or 3 of a raised line that no raised line precedes in the order fast 0 to 14, external, software, and 7 when none is raised |
| `ControllerLaws.MemoryPriority` | ibex-soc/rtl/ibex_controller.sv:239-302 | stores before loads, both before the instruction in ID exactly with a writeback stage |
| `ControllerLaws.LocalPriority` | ibex-soc/rtl/ibex_controller.sv:239-302 | fetch fault, illegal instruction, environment call, breakpoint |
| `ControllerLaws.ExceptionReport` | ibex-soc/rtl/ibex_controller.sv:737-796 | FLUSH reports the winning exception under its number 1, 2, 3, 5, 7, 8 or 11 with the right mtval, jumps to the right handler and saves the PC of the right stage |
| `ControllerLaws.BreakpointEntersDebug` | ibex-soc/rtl/ibex_controller.sv:770-831 | an EBREAK into debug mode neither jumps nor flushes nor saves, and debug entry follows |
| `ControllerLaws.SpecialInstructions` | ibex-soc/rtl/ibex_controller.sv:796-831 | MRET and DRET jump to their own PCs, restore their own state and leave NMI or debug mode; WFI sleeps; nothing else does either |
| `ControllerLaws.DebugCauses` | ibex-soc/rtl/ibex_controller.sv:430-437 | the recorded debug cause: trigger, then EBREAK, then request, then step |
| `ControllerLaws.DebugEntry` | ibex-soc/rtl/ibex_controller.sv:676-726 | what the two debug entries save, and where they jump |
| `ControllerLaws.QuietDecode` | ibex-soc/rtl/ibex_controller.sv:610-633 | with ID and writeback empty DECODE serves debugging before interrupts, and the recorded cause names what asked for it |
| `ControllerLaws.Boot` | ibex-soc/rtl/ibex_controller.sv:495-509 | the two boot states |
| `ControllerLaws.Asleep` | ibex-soc/rtl/ibex_controller.sv:511-534 | asleep, nothing is fetched; SLEEP ends and the clock runs exactly when something asks for it |
| `ControllerLaws.Fetching` | ibex-soc/rtl/ibex_controller.sv:536-559 | the successor of FIRST_FETCH, debugging before interrupts before fetching |
| `ControllerLaws.Branching` | ibex-soc/rtl/ibex_controller.sv:594-608 | DECODE jumps exactly for a branch or jump the predictor has not followed, and reports one it followed wrongly |
| `ControllerLaws.DecodeFlushes` | ibex-soc/rtl/ibex_controller.sv:576-592 | which instructions DECODE keeps in ID, and when exactly FLUSH follows |
| `ControllerLaws.DecodeHalts` | ibex-soc/rtl/ibex_controller.sv:610-633 | exactly when DECODE stops letting instructions in |
| `ControllerLaws.FloppedWires` | ibex-soc/rtl/ibex_controller.sv:873-896 | what the registers besides state and modes hold in the next cycle |
| `ControllerLaws.SignalsByState` | ibex-soc/rtl/ibex_controller.sv:453-844 | in which states each pulse, restore, fetch stop and mode change can occur |
| `ControllerLaws.HaltsByState` | ibex-soc/rtl/ibex_controller.sv:494-843 | IF is halted whenever fetching is disabled, and in the entry states only then |
| `ControllerLaws.IntegrityRecord` | ibex-soc/rtl/ibex_controller.sv:312-351 | an integrity error is recorded with its address when none is pending, and dropped exactly when IRQ_TAKEN takes it |
| `ControllerLaws.Handshakes` | ibex-soc/rtl/ibex_controller.sv:861-871 | when exactly ID takes an instruction, drops its own, and which exceptions are announced |
| `Pipeline.Wires` | ibex-soc/rtl/ibex_controller.sv:190-236 | the controller sees the ID, writeback and load-store signals of the pipeline model |
| `Pipeline.PrivilegeChecked` | ibex-soc/rtl/ibex_id_stage.sv:534-542 | which instructions that decode are rejected: MRET and a trapped WFI outside machine mode, DRET outside debug mode, refused CSR accesses, and nothing else |
| `Pipeline.WaitsInId` | ibex-soc/rtl/ibex_id_stage.sv:941-996 | with writeback stage an instruction neither leaves ID nor lets another in while it reads a pending load, while its own access is not handed over, and while writeback is unanswered |
| `Pipeline.ExecutesOrStalls` | ibex-soc/rtl/ibex_id_stage.sv:958-977 | the three asserted properties: a valid instruction that is not killed executes or stalls, none is done beside a fault or an unanswered access in writeback, and a stalled access has not been handed over |
| `Pipeline.DirectionCaptured` | ibex-soc/rtl/ibex_load_store_unit.sv:201-212 | the load-store unit takes the direction of a request when it starts it or while it works, and keeps it otherwise |
| `Pipeline.DecodeMoves` | ibex-soc/rtl/ibex_controller.sv:561-635 | where DECODE goes, and that a retained or stalled instruction stays in ID unoverwritten |
| `Pipeline.StepKeeps` | ibex-soc/rtl/ibex_controller.sv:485-896 | every cycle keeps the joint invariant of controller, ID register, writeback slot and memory requests |
| `PipelineRuns.InvReached` | ibex-soc/rtl/ibex_controller.sv:485-896 | the invariant holds after every sequence of cycles from reset, in every configuration; its memory part where no rejected access reaches memory |
| `PipelineRuns.PipeEmptyOnIrq` | ibex-soc/rtl/ibex_controller.sv:898-899 | an interrupt is only taken with ID empty and writeback ready, outside debug and NMI mode |
| `PipelineRuns.ExceptionPrioOneHot` | ibex-soc/rtl/ibex_controller.sv:295-302 | whenever FLUSH takes an exception, ID or memory, exactly one priority signal is high |
| `PipelineRuns.MemoryFaultFlushes` | ibex-soc/rtl/ibex_controller.sv:577-592 | where no rejected access reaches memory, an erroneous response only comes in DECODE, sends it to FLUSH and keeps the younger instruction from completing |
| `PipelineRuns.MemoryFaultIsReported` | ibex-soc/rtl/ibex_controller.sv:738-796 | there no memory fault is lost or overtaken: the next cycle reports it with its address and saves the PC of the faulting instruction |
| `PipelineRuns.DebugModeSwitchesEmpty` | ibex-soc/rtl/ibex_controller.sv:928-935 | debug mode changes only with a flush and a jump, and every stage is empty afterwards |
| `PipelineRuns.DretIsFresh` | ibex-soc/rtl/ibex_controller.sv:816-831 | a DRET leaves ID and writeback empty with the step flag clear |
| `PipelineRuns.SingleStep` | ibex-soc/rtl/ibex_controller.sv:377-393 | after a DRET with step held at most one instruction is admitted before the next debug entry, and exactly one unless a request or trigger intervenes |
| `PipelineRuns.DecodeHolds` | ibex-soc/rtl/ibex_id_stage.sv:889-975 | DECODE only lets go of an instruction that completes |
| `PipelineRuns.NoOverwrite` | ibex-soc/rtl/ibex_if_stage.sv:475-496 | an instruction is only written over one that has left |
| `PipelineRuns.CycleAccount` | ibex-soc/rtl/ibex_id_stage.sv:889-1075 | nothing completes twice, and what leaves ID has completed or is killed by an exception |
| `PipelineRuns.EveryInstructionAccounted` | ibex-soc/rtl/ibex_wb_stage.sv:85-90 | over every run: admitted = completed + killed by an exception + the one still in ID |
| `PipelineRuns.PreciseExceptions` | ibex-soc/rtl/ibex_controller.sv:577-592 | with a writeback stage the instruction in ID has not completed when FLUSH takes an exception, and nothing older is unfinished |
| `PipelineRuns.AnnouncesDelivery` | ibex-soc/rtl/ibex_controller.sv:645-660 | the outputs announce an integrity error exactly when the record is handed over, with the recorded address |
| `PipelineRuns.IntegrityCycle` | ibex-soc/rtl/ibex_controller.sv:312-357 | in each cycle the pending record and its address are kept, made, or handed over at an NMI, never two of these at once |
| `PipelineRuns.IntegrityErrorsDeliveredOnce` | ibex-soc/rtl/ibex_controller.sv:312-357 | over every run the recorded error addresses are, in order, those announced followed by the one still pending |
| `PipelineRuns.NmiModeChanges` | ibex-soc/rtl/ibex_controller.sv:403-414 | NMI mode starts only with an NMI taken outside it and ends only at a completed MRET in FLUSH |
| `PipelineRuns.MispredictClears` | ibex-soc/rtl/ibex_controller.sv:921 | a mispredicted branch is cleared from ID at once exactly when no older memory access is unanswered or failed, the branch needs no second cycle and names no register that RV32E lacks |
| `PipelineRuns.MispredictWithoutClear` | ibex-soc/rtl/ibex_controller.sv:921 | a reset-to-here sequence in which the assertion fails: a branch mispredicts behind an unanswered load and stays in ID |
| `PipelineRuns.LeaksExactly` | ibex-soc/rtl/ibex_decoder.sv:652-665 | an illegal instruction reaches the load-store unit exactly in the first cycle of a load or store that only the RV32E register check rejects, without writeback stage |
| `PipelineRuns.NothingLeaks` | ibex-soc/rtl/ibex_decoder.sv:652-665 | in no cycle of any run does an illegal instruction reach the load-store unit, exactly with the writeback stage or without RV32E |
| `PipelineRuns.FaultForgotten` | ibex-soc/rtl/ibex_controller.sv:577-592 | in every other configuration a run from reset: the orphaned request fails in FLUSH, DECODE does not look at the recorded fault, and it is gone |
| `PipelineRuns.NoFaultIsLost` | ibex-soc/rtl/ibex_controller.sv:577-592 | every memory fault of every run is reported the cycle after, exactly with the writeback stage or without RV32E |
| `CosimMatcher.Combine` | ibex-soc/dv/cosim/spike_cosim.cc:954-958 | the byte loop joins the access bytes into one word |
| `CosimMatcher.WordComparison` | ibex-soc/dv/cosim/spike_cosim.cc:959-968 | comparing shifted bytes with the masked word compares exactly the touched lanes |
| `CosimMatcher.Checker.NotifyDsideAccess` | ibex-soc/dv/cosim/spike_cosim.cc:764-770 | a notified access joins the queue with nothing touched |
| `CosimMatcher.Checker.DataMatches` | ibex-soc/dv/cosim/spike_cosim.cc:950-982 | data is compared on the touched lanes, and not at all for erroneous loads |
| `CosimMatcher.Checker.CheckMemAccess` | ibex-soc/dv/cosim/spike_cosim.cc:841-1037 | queue, verdict and error count after a reference model access, every early return included |
| `CosimMatcher.Checker.MisalignedPmpFixup` | ibex-soc/dv/cosim/spike_cosim.cc:648-684 | a second half whose first half failed is dropped, or an error recorded |
| `CosimLedger.AccountsAdd` | ibex-soc/dv/cosim/spike_cosim.cc:897-926 | touches of disjoint lanes add up without repetition |
| `CosimLedger.SettleKeeps` | ibex-soc/dv/cosim/spike_cosim.cc:841-1037 | every accepted event keeps the ledger: groups met, head partly met, all others untouched |
| `CosimLedger.SettleBalances` | ibex-soc/dv/cosim/spike_cosim.cc:841-1037 | one event charges exactly its own bytes and moves accesses only from the queue into the ledger |
| `CosimLedger.BytesConserved` | ibex-soc/dv/cosim/spike_cosim.cc:764-1037 | over every run without a reported mismatch the touched bytes are, in order, those charged to removed accesses and then the head, each lane once and with equal values; only stated error cases may leave lanes out |
| `CosimLedger.FullyMet` | ibex-soc/dv/cosim/spike_cosim.cc:764-1037 | without error responses every removed access was met on all its enabled lanes |
| `CosimLedger.BytewiseAccepted` | ibex-soc/dv/cosim/spike_cosim.cc:894-933 | no false alarm: touching the missing lanes of a misaligned access byte by byte in any order is accepted and consumes it |
| `CosimLedger.AlignedAccepted` | ibex-soc/dv/cosim/spike_cosim.cc:933-948 | no false alarm: the matching access to an aligned entry is accepted, answered with the error the DUT saw or none, and consumes it |
| `CosimVerdicts.FailsExactly` | ibex-soc/dv/cosim/spike_cosim.cc:841-1037 | a mismatch is reported exactly when the access differs from the oldest pending one in word, direction, lanes, data or a missing second half |
| `CosimVerdicts.BusErrorExactly` | ibex-soc/dv/cosim/spike_cosim.cc:982-1036 | an accepted access is answered with a bus error exactly when the DUT saw one on the access it is charged to |
| `CosimVerdicts.ErrorLeaves` | ibex-soc/dv/cosim/spike_cosim.cc:982-1036 | an erroneous access leaves the queue at its first accepted piece, with its second half when it reaches the top lane |
| `CosimVerdicts.QueueAfter` | ibex-soc/dv/cosim/spike_cosim.cc:841-1034 | a refused access leaves the queue as it is except for the lanes it was recorded to touch, and an accepted one removes its entry as soon as all lanes are met |
| `CosimVerdicts.AlignedErrorAnswered` | ibex-soc/dv/cosim/spike_cosim.cc:933-1036 | no false alarm: the matching access to an erroneous aligned entry is answered with a bus error, whatever a load returns |
| `CosimVerdicts.MisalignedErrorAnswered` | ibex-soc/dv/cosim/spike_cosim.cc:894-1036 | no false alarm: the first byte of an erroneous misaligned access is answered with a bus error and takes the access along |
| `CosimVerdicts.AnsweredAsObserved` | ibex-soc/dv/cosim/spike_cosim.cc:841-1037 | over every run without a mismatch the bytes answered with a bus error are exactly those charged to accesses on which the DUT saw one, in order |
| `PmpModel.HandleReservedVals` | ibex-soc/dv/cs_registers/model/base_register.cc:185-204 | the loop clears R and W of exactly the bytes with W and not R, unless MML is set |
| `PmpModel.LockedBytes` | ibex-soc/dv/cs_registers/model/base_register.cc:134-152 | the accumulated mask is the locked bytes |
| `PmpModel.MseccfgMask` | ibex-soc/dv/cs_registers/model/base_register.cc:113-132 | the accumulated mseccfg mask |
| `PmpModel.Modify` | ibex-soc/dv/cs_registers/model/base_register.cc:14-34 | write, set and clear change exactly the unlocked bits |
| `PmpModel.RegisterModel.constructor` | ibex-soc/dv/cs_registers/model/register_model.cc:9-35 | the map built by the loops has the expected register at every address |
| `PmpModel.RegisterModel.AnyPmpCfgsLocked` | ibex-soc/dv/cs_registers/model/base_register.cc:100-111 | the scan finds a set L bit exactly when there is one |
| `PmpModel.RegisterModel.AddrMask` | ibex-soc/dv/cs_registers/model/base_register.cc:206-234 | pmpaddr is locked by its own L bit or by a following top-of-range region |
| `PmpModel.RegisterModel.GetLockMask` | ibex-soc/dv/cs_registers/model/base_register.cc:84-234 | every kind of register computes its lock mask |
| `PmpModel.RegisterModel.Perform` | ibex-soc/dv/cs_registers/model/base_register.cc:14-183 | one register performs the operation and reads back its old value |
| `PmpModel.RegisterModel.NewTransaction` | ibex-soc/dv/cs_registers/model/register_model.cc:106-123 | exactly the addressed register changes, and a stop is requested exactly on a mismatch or a missing error |
| `PmpModel.RegisterModel.RegisterReset` | ibex-soc/dv/cs_registers/model/register_model.cc:100-104 | reset clears every register |
| `PmpLocking.FixReservedAt` | ibex-soc/dv/cs_registers/model/base_register.cc:185-204 | each bit of a stored pmpcfg byte |
| `PmpLocking.LockedByteKept` | ibex-soc/dv/cs_registers/model/base_register.cc:134-183 | no operation changes a legal locked byte while RLB is clear, reserved-value fixing included |
| `PmpLocking.ApplyKeepsInv` | ibex-soc/dv/cs_registers/model/base_register.cc:154-204 | stored bytes stay legal for the current MML |
| `PmpLocking.StickyBits` | ibex-soc/dv/cs_registers/model/base_register.cc:113-132 | MML and MMWP never fall |
| `PmpLocking.LockedStaysLocked` | ibex-soc/dv/cs_registers/model/base_register.cc:113-234 | from any reachable state with RLB clear and a region locked, RLB, its configuration byte and its address keep their values through every later sequence of operations |
| `PmpLocking.LowerBoundStays` | ibex-soc/dv/cs_registers/model/base_register.cc:206-234 | a locked top-of-range region also freezes the address below it |
| `PmpLocking.AddrWrite` | ibex-soc/dv/cs_registers/model/base_register.cc:206-234 | a write, set or clear of pmpaddr does what the CSR instruction does exactly when the code's own lock rule lets it, and nothing otherwise |
| `PmpLocking.AddrBits` | ibex-soc/dv/cs_registers/model/base_register.cc:14-34 | bit by bit on every region's register: unless locked by bit 7 of its own byte or mode 01 of the next, a write stores w, SET leaves v or w, CLEAR leaves v and not w |
| `PmpLocking.NotImplemented` | ibex-soc/dv/cs_registers/model/base_register.cc:236-242 | registers of regions that are not configured, and mseccfgh, read as zero and take no operation |
| `PmpLocking.UnlockedIsCsr` | ibex-soc/dv/cs_registers/model/base_register.cc:14-34 | with nothing locked the three update formulas are the CSR instructions |
| `PmpLocking.LocksMore` | ibex-soc/dv/cs_registers/model/base_register.cc:206-234 | the code locks whatever the standard locks, and exactly when it locks more: under RLB whatever is locked or below a top-of-range region, otherwise below an unlocked top-of-range region with the own L bit clear |
| `PmpLocking.AddrAgrees` | ibex-soc/dv/cs_registers/model/base_register.cc:206-234 | an operation on pmpaddr ends as the standard says exactly when the two lock rules agree or the CSR instruction would change nothing anyway |
| `PmpLocking.DiffersBelowTor` | ibex-soc/dv/cs_registers/model/base_register.cc:206-234 | one write from reset, below an unlocked top-of-range region the code drops a write that the standard performs |
| `PmpLocking.DiffersUnderBypass` | ibex-soc/dv/cs_registers/model/base_register.cc:206-234 | two writes from reset, under RLB the code drops a write to a locked region's address that the standard performs |
| `PmpLocking.MseccfgWrite` | ibex-soc/dv/cs_registers/model/base_register.cc:113-132 | what any operation leaves in mseccfg: RLB stays clear while any region is locked, MMWP and MML only rise, the other bits never change |
| `PmpLocking.CfgWrite` | ibex-soc/dv/cs_registers/model/base_register.cc:154-204 | each byte any operation leaves in a pmpcfg register: the old one exactly if locked with RLB clear, else what the CSR instruction makes of it, legalised |
| `CompressedMeaning.ExpansionKeepsMeaning` | ibex-soc/rtl/ibex_compressed_decoder.sv:36-277 | every word is rejected exactly when it is a reserved or unsupported compressed encoding, and otherwise becomes a full-size word with the same operation, registers and sign-extended immediate; full-size words pass unchanged and expanding twice is expanding once |
| `CompressedMeaning.FullSizePasses` | ibex-soc/rtl/ibex_compressed_decoder.sv:38-42 | a full-size word is handed on as it is and never rejected |
| `CompressedMeaning.ExpansionIsFull` | ibex-soc/rtl/ibex_compressed_decoder.sv:36-277 | a legal expansion is a full-size instruction |
| `BranchPredictor.KindsDisjoint` | ibex-soc/rtl/ibex_branch_predict.sv:66-90 | a word is of at most one branch or jump kind |
| `BranchPredictor.FullPrediction` | ibex-soc/rtl/ibex_branch_predict.sv:58-99 | the prediction on a full-size branch or jump follows from its meaning |
| `BranchPredictor.CompressedPrediction` | ibex-soc/rtl/ibex_branch_predict.sv:58-99 | the prediction on a compressed instruction follows from its meaning |
| `BranchPredictor.PredictionCommutes` | ibex-soc/rtl/ibex_branch_predict.sv:58-99 | for every word that expands, the prediction on it is that on its expansion, and for branches and jumps so is the target |
| `BranchPredictor.TakenExactly` | ibex-soc/rtl/ibex_branch_predict.sv:68-97 | by the bits of any word: jumps are taken, and of the branches exactly those whose sign bit is up |
| `BranchPredictor.BackwardTaken` | ibex-soc/rtl/ibex_branch_predict.sv:93-97 | a branch is taken exactly when the offset its meaning names is negative |
| `BranchPredictor.TargetIsSum` | ibex-soc/rtl/ibex_branch_predict.sv:98-99 | the target is the PC plus the offset modulo 2^32 |
| `Timer.Device.Wait` | ibex-soc/shared/rtl/timer.sv:56-107 | the counter advances, and the interrupt rises in the first cycle at or past the comparand and stays up |
| `Timer.Device.DevRead` | ibex-soc/shared/rtl/timer.sv:113-126 | register reads |
| `Timer.Device.DevWrite` | ibex-soc/shared/rtl/timer.sv:78-101 | writing half a comparand takes the interrupt down |
| `Timer.Device.Attempt` | ibex-soc/examples/sw/simple_system/common/simple_system_common.c:164-167 | one turn of the read loop: the two high halves agree exactly when the attempt is clean |
| `Timer.AttemptsClimb` | ibex-soc/examples/sw/simple_system/common/simple_system_common.c:163-167 | every attempt that is not clean has seen the high half grow |
| `Timer.CalmSettles` | ibex-soc/examples/sw/simple_system/common/simple_system_common.c:160-170 | if the counter does not wrap around within three accesses for each remaining value of the high half, an attempt is clean before it does |
| `Timer.TickingSettles` | ibex-soc/examples/sw/simple_system/common/simple_system_common.c:160-170 | a counter that ticks up to 2^30 times between any two accesses, for ever, lets every read from a low start settle |
| `Timer.Device.TimerRead` | ibex-soc/examples/sw/simple_system/common/simple_system_common.c:160-170 | unless the counter wraps around before an attempt is clean, the read ends at the first clean attempt with a value the counter held during the call |
| `Timer.Device.TimecmpUpdate` | ibex-soc/examples/sw/simple_system/common/simple_system_common.c:172-176 | no firing during the update comes before the earlier of the old and the new comparand |
| `Timer.Device.IncrementTimecmp` | ibex-soc/examples/sw/simple_system/common/simple_system_common.c:141-145 | the new deadline is base cycles after a value the counter held during the call |
| `Timer.Clock.TimerEnable` | ibex-soc/examples/sw/simple_system/common/simple_system_common.c:147-156 | the first deadline, counters reset |
| `Timer.Clock.SimpleTimerHandler` | ibex-soc/examples/sw/simple_system/common/simple_system_common.c:182-185 | each handled interrupt counts once and moves the deadline one increment on |
| `Timer.AllOnesAbove` | ibex-soc/examples/sw/simple_system/common/simple_system_common.c:172-176 | all ones in the low half is the largest comparand with that high half |
| `NumberFormat.DigitsEvaluate` | ibex-soc/examples/sw/benchmarks/coremark/ibex/ee_printf.c:76-85 | the digits of a number evaluate to it in every base from 2 to 36 |
| `NumberFormat.NoLeadingZero` | ibex-soc/examples/sw/benchmarks/coremark/ibex/ee_printf.c:76-85 | no leading zero unless the number is 0 |
| `NumberFormat.PeelDigits` | ibex-soc/examples/sw/benchmarks/coremark/ibex/ee_printf.c:80-85 | the division loop stores the digits last first, within 32 places of the 66-byte buffer |
| `NumberFormat.Emit` | ibex-soc/examples/sw/benchmarks/coremark/ibex/ee_printf.c:110-111 | the digits come out most significant first |
| `NumberFormat.TakeSign` | ibex-soc/examples/sw/benchmarks/coremark/ibex/ee_printf.c:53-67 | sign, magnitude as an unsigned long, and remaining width |
| `NumberFormat.WriteOut` | ibex-soc/examples/sw/benchmarks/coremark/ibex/ee_printf.c:87-113 | the output loops pad in at most one of three places |
| `NumberFormat.Number` | ibex-soc/examples/sw/benchmarks/coremark/ibex/ee_printf.c:40-116 | for every number, base, width, precision and flags the output is the specified layout, none for an unknown base |
| `NumberFormat.FormattedLength` | ibex-soc/examples/sw/benchmarks/coremark/ibex/ee_printf.c:70-113 | exactly max(width, sign + prefix + max(precision, digits)) characters |
| `NumberFormat.BodyValue` | ibex-soc/examples/sw/benchmarks/coremark/ibex/ee_printf.c:53-111 | the printed digits evaluate to the absolute value when signed, the most negative number included, and to the number modulo 2^32 when not |
| `NumberFormat.Alphabet` | ibex-soc/examples/sw/benchmarks/coremark/ibex/ee_printf.c:22-23 | the two digit alphabets, entry by entry |
| `NumberFormat.DigitCase` | ibex-soc/examples/sw/benchmarks/coremark/ibex/ee_printf.c:44-47 | letters among the digits are all of the requested case |
| `NumberFormat.SignShown` | ibex-soc/examples/sw/benchmarks/coremark/ibex/ee_printf.c:53-65 | exactly when -, +, a blank or nothing is shown as the sign |
| `NumberFormat.PrefixShown` | ibex-soc/examples/sw/benchmarks/coremark/ibex/ee_printf.c:94-101 | exactly when 0x, 0 or nothing is shown as the prefix |
| `NumberFormat.PaddingPlaced` | ibex-soc/examples/sw/benchmarks/coremark/ibex/ee_printf.c:87-113 | blanks after everything when left-adjusted, else zeros between prefix and digits, else blanks before everything |
| `NumberFormat.PrecisionZeros` | ibex-soc/examples/sw/benchmarks/coremark/ibex/ee_printf.c:87-111 | the digits are filled up to the precision with zeros in front |
| `NumberFormat.SkipAtoi` | ibex-soc/examples/sw/benchmarks/coremark/ibex/ee_printf.c:33-38 | every decimal below 2^31 is read exactly, although the intermediate sum wraps around |
| `NumberFormat.NoSumOverflows` | ibex-soc/examples/sw/benchmarks/coremark/ibex/ee_printf.c:35-36 | no intermediate sum leaves the range of int exactly for decimals up to 2147483599 |
| `NumberFormat.DecimalRoundTrip` | ibex-soc/examples/sw/benchmarks/coremark/ibex/ee_printf.c:33-116 | what is printed unpadded is read back |
| `DmaDriver.CheckRangeExact` | linux_driver/systolic_array_dma.c:113-127 | the range check passes exactly when the copied bytes lie inside a live buffer, without wrap-around |
| `DmaDriver.StatusMeansDone` | linux_driver/systolic_array_hw.c:28-37 | the AND of the four done registers is nonzero exactly when some bit is up in all of them |
| `DmaDriver.OneBitStatus` | linux_driver/systolic_array_hw.c:28-37 | with registers that read 0 or 1 the status is 1 exactly when all four are up |
| `DmaDriver.WaitDone` | linux_driver/systolic_array_hw.c:39-49 | success exactly when one of the first timeout polls finds a bit up in all four done registers |
| `DmaDriver.AllocateKeeps` | linux_driver/systolic_array_dma.c:10-33 | allocation keeps ownership: held blocks are the live ones, each in one buffer |
| `DmaDriver.ReleaseKeeps` | linux_driver/systolic_array_dma.c:35-48 | freeing keeps ownership and every block is freed once |
| `DmaDriver.PatchReadsBack` | linux_driver/systolic_array_dma.c:129-169 | copied bytes read back and no other byte of the buffer moves |
| `DmaDriver.WriteReadsBack` | linux_driver/systolic_array_dma.c:129-149 | the written range of a block reads back; no other byte or block moves, and ownership stays |
| `DmaDriver.CopyThereAndBack` | linux_driver/systolic_array_dma.c:129-171 | a copy to a buffer followed by a copy from the same range gives the bytes back and changes nothing outside it, or both are refused |
| `DmaDriver.Device.AllocOne` | linux_driver/systolic_array_dma.c:10-33 | one allocation, failing or not |
| `DmaDriver.Device.FreeOne` | linux_driver/systolic_array_dma.c:35-48 | one release, nothing when there is no block |
| `DmaDriver.Device.AllocInputs` | linux_driver/systolic_array_dma.c:62-68 | input buffers are allocated in order until one fails |
| `DmaDriver.Device.FreeInputs` | linux_driver/systolic_array_dma.c:76-78 | the rollback loop frees what was allocated |
| `DmaDriver.Device.DmaInit` | linux_driver/systolic_array_dma.c:50-81 | all four buffers live, or none and the first error |
| `DmaDriver.Device.DmaCleanup` | linux_driver/systolic_array_dma.c:83-91 | no buffer is live afterwards |
| `DmaDriver.Device.Probe` | linux_driver/systolic_array_main.c:253-295 | bound exactly when everything succeeded, nothing left behind otherwise |
| `DmaDriver.Device.Remove` | linux_driver/systolic_array_main.c:297-305 | unbinding frees every block |
| `DmaDriver.Device.CopyToBuffer` | linux_driver/systolic_array_dma.c:129-149 | bytes land inside the chosen buffer or nothing changes |
| `DmaDriver.Device.CopyFromBuffer` | linux_driver/systolic_array_dma.c:151-171 | exactly the addressed bytes are handed out |
| `DmaDriver.Device.ProgramDmaRegisters` | linux_driver/systolic_array_main.c:125-145 | registers 2, 3, 6, 7, 10, 11, 14 and 15 name the driver's own blocks and the byte counts, the casts to 32 bits losing nothing, and no other register changes |
| `DmaDriver.Device.Run` | linux_driver/systolic_array_main.c:222-240 | the hardware is started exactly when every byte count fits, with all four windows inside their own live buffers |
| `DmaDriver.Device.Start` | linux_driver/systolic_array_hw.c:23-26 | the hardware starts on whatever the registers hold |
| `DmaDriver.Device.WriteHw` | linux_driver/systolic_array_hw.c:18-21 | one register takes the value, and a write to the start register starts the hardware |
| `DmaDriver.Device.WriteReg` | linux_driver/systolic_array_main.c:171-180 | a user's write to any register of the map, rejected past its end |
| `DmaSessions.WritesWindows` | linux_driver/systolic_array_main.c:171-180 | a register write moves one end of one window, or none |
| `DmaSessions.Tracks` | linux_driver/systolic_array_main.c:125-145 | an address last programmed by a RUN of this binding is its buffer's |
| `DmaSessions.StartInside` | linux_driver/systolic_array_main.c:182-184 | with every address from a RUN of this binding and every byte count within its buffer, a start stays inside the driver's own blocks |
| `DmaSessions.PlacementIsFree` | linux_driver/systolic_array_main.c:253-305 | where the buffers lie decides neither whether the driver is bound, nor what a RUN programmed, nor any byte count |
| `DmaSessions.StartOutside` | linux_driver/systolic_array_main.c:182-184 | an address that no RUN of this binding programmed: some placement of the same buffers puts that channel's window outside its block |
| `DmaSessions.StartSafe` | linux_driver/systolic_array_main.c:182-184 | a start is safe wherever the buffers lie exactly when a RUN of this binding was the last to program every address and every byte count fits its buffer |
| `DmaSessions.ArmedIsRan` | linux_driver/systolic_array_main.c:182-184 | as long as nobody writes registers directly, that is: a RUN has passed its size check since the last successful probe |
| `DmaSessions.StartOnFreedBlocks` | linux_driver/systolic_array_main.c:182-184 | probe, RUN, remove, probe, START: the second start works on the freed blocks of the first binding |
| `DmaSessions.StartUnprogrammed` | linux_driver/systolic_array_main.c:182-184 | a START on registers never programmed since reset moves no byte, and its windows are not the driver's blocks |
| `DmaSessions.DisciplineKeepsInside` | linux_driver/systolic_array_main.c:147-305 | in a session whose every bare start meets that condition the hardware never starts outside the driver's blocks |
| `DmaSessions.UndisciplinedStartsOutside` | linux_driver/systolic_array_main.c:147-305 | otherwise some placement of the buffers makes the same calls start it outside them |
| `DmaSessions.SessionSafe` | linux_driver/systolic_array_main.c:147-305 | a session is safe for every placement exactly when every bare start meets the condition |
| `DmaSessions.Call` | linux_driver/systolic_array_main.c:147-305 | one probe, remove or ioctl does to the device what it does to the specification's status |
| `DmaSessions.Session` | linux_driver/systolic_array_main.c:147-305 | over every sequence of probe, the register write, START, WAIT, copy and RUN ioctls and remove, with failures anywhere: exactly the driver's own blocks are live while bound and none otherwise, each is freed once, and every start lands where the specification says |
| `DmaCompletion.AnsweredMeansAll` | linux_driver/systolic_array_main.c:186-196 | one successful wait answers every launch before it, so the last launch decides |
| `DmaCompletion.LatestConsistent` | linux_driver/systolic_array_main.c:186-196 | the hardware may work on every launch until the first wait that returned 0 |
| `DmaCompletion.RemoveSafe` | linux_driver/systolic_array_main.c:297-305 | no remove frees buffers the hardware still works on, whenever it finishes, exactly when before every remove the last launch was followed by a wait that returned 0 |
| `DmaCompletion.TimeoutFreesUnderWork` | linux_driver/systolic_array_main.c:235-240 | a RUN that times out and a remove: the buffers can be freed under the hardware's work |

## Left out

- The systolic array, its DMA controller and the AXI bridges: their RTL is not part of this model.
- Adder, comparator, bit-field, single-bit, pack, min/max, sign-extension and crossbar units of the ALU, each of which is a single expression over its operands.
- GREV and GORC with the restricted amounts of the smaller bit-manipulation configurations, which are instances of the full unit.
- The ID stage's multiplier, divider and branch timing: a free stall signal stands for them.
- The load-store unit's handling of split accesses, byte lanes and protection errors: it works on a request for any number of cycles and answers, with or without error, in any cycle in which it owes an answer and is not at work. The check for unexpected responses in secure configurations is not modelled; it can only turn an error into none.
- The removal of one queue entry on an internal NMI in the co-simulation, which depends on the reference simulator's trap state.
- Reference simulator stepping, interrupt injection, CSR fix-ups and NMI save and restore: they act on a foreign library.
- Register values as machine words in the PMP model: they are bit sequences, masks are given by their set bits.
- PmpModel.RegisterModel.constructor: without the performance counters, which neither read nor are read by the PMP registers.
- PmpModel.RegisterModel.NewTransaction: counter addresses count as absent for the same reason, and mcycle mismatches, which the checker forgives, do not arise.
- PmpModel.RegisterModel.RegisterReset: without the counters' own reset values.
- Timer.Device.Wait: a bus access's own cycle counts as part of the wait that follows. What the device does once the counter has wrapped around 64 bits is not modelled: each access requires that it has not by then, TimerRead that it does not before an attempt is clean.
- Timer.Device.DevRead: the same.
- Timer.Device.DevWrite: the same, and only the comparand is written; the software never writes the counter.
- NumberFormat.Number: builds a string instead of writing through a moving pointer, and does not model overflow of the width and precision counters near the ends of int.
- NumberFormat.SkipAtoi: a signed sum that overflows is undefined in C; from 2147483600 on the model assumes that it wraps around at 32 bits.
- NumberFormat.TakeSign: negating the most negative number is undefined in C; the model assumes that it wraps around at 32 bits.
- Other conversions of the formatter, its argument parsing and floating-point output.
- DmaSessions.Session: one caller at a time, and registers that read 0 at reset; any write to the start register counts as a start. Concurrent ioctls, delays and cache coherence are outside the model. Register reads and the report of the DMA addresses change nothing and are left out, as is an ioctl whose argument cannot be copied.
- DmaCompletion.RemoveSafe: takes a wait that returned 0 as proof that every earlier launch has finished; whether a start clears the done registers is up to hardware that is not part of this model.
- What the kernel does in `copy_from_user` on a fault is a parameter, as are the outcomes of allocation, mapping and registration.
