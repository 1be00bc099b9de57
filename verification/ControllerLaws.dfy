/**
 * What the controller's outputs mean: the causes and values it reports by their architectural
 * numbers, and each output signal as one condition over states and wires. The rows of Controller
 * give the same signals state by state.
 */
module ControllerLaws {
  import opened Controller

  // ---------------------------------------------------------------------------------------------
  // Interrupts

  /** No line before the k-th is raised. */
  predicate NoneBelow(fast: FastLines, k: nat)
    requires k <= 15
  {
    forall j :: 0 <= j < k ==> !fast[j]
  }

  /** IRQ_TAKEN takes an interrupt outside debug mode, NMI mode and single stepping, when one is there. */
  lemma TakesInterrupt(c: Config, r: Registers, i: Inputs)
    requires r.phase.IrqTaken?
    ensures Controls(c, r, i).redirect.jump <==>
            && !r.debugMode && !r.nmiMode && !i.singleStep
            && (i.nmiExt || (c.memECC && r.intgPending) || (i.irqPending && (i.mie || i.priv.UserLevel?)))
    ensures Controls(c, r, i).saves == (if Controls(c, r, i).redirect.jump
                                        then Saves(true, false, false, true, false)
                                        else Saves(false, false, false, false, false))
    ensures Controls(c, r, i).redirect.mux == PcExc && Controls(c, r, i).redirect.handler == ExcPcIrq
    ensures var k := Controls(c, r, i);
      && k.next.Decode? && !k.flushId && !k.retainId && k.haltIf == !i.instrExec && k.debugModeD == r.debugMode
      && (k.nmiModeD <==> r.nmiMode || (k.redirect.jump && (i.nmiExt || (c.memECC && r.intgPending))))
  {
  }

  /**
   * The interrupt reported is 31 for the external NMI, the internal cause 0 with the recorded address
   * for an integrity error, and otherwise the number of a raised line that no raised line precedes in
   * the order fast 0 to 14 (16 to 30), external (11), software (3); 7 when none of them is raised.
   */
  lemma InterruptReport(c: Config, r: Registers, i: Inputs)
    requires r.phase.IrqTaken? && Controls(c, r, i).redirect.jump
    ensures var cause, value := Controls(c, r, i).report.cause, Controls(c, r, i).report.mtval;
      if i.nmiExt then cause == Cause(true, false, 31) && value == 0
      else if c.memECC && r.intgPending then cause == Cause(false, true, 0) && value == r.intgAddr
      else
        && cause.irqExt && !cause.irqInt && value == 0
        && (|| (16 <= cause.lower < 31 && i.irqs.fast[cause.lower - 16] && NoneBelow(i.irqs.fast, cause.lower - 16))
            || (cause.lower == 11 && i.irqs.external && NoneBelow(i.irqs.fast, 15))
            || (cause.lower == 3 && i.irqs.software && !i.irqs.external && NoneBelow(i.irqs.fast, 15))
            || (cause.lower == 7 && !i.irqs.software && !i.irqs.external && NoneBelow(i.irqs.fast, 15)))
  {
  }

  // ---------------------------------------------------------------------------------------------
  // Exceptions

  /** Some exception of the instruction in ID is raised. */
  predicate LocalFault(r: Registers, i: Inputs) {
    r.illegalInsn || (i.instrValid && (i.fetchErr || i.ecallInsn || i.ebrkInsn))
  }

  /** Stores before loads, both before the instruction in ID with a writeback stage and after it without. */
  lemma MemoryPriority(c: Config, r: Registers, i: Inputs)
    ensures Prio(c, StoreFault, r, i) <==> r.storeErr && (c.writebackStage || !LocalFault(r, i))
    ensures Prio(c, LoadFault, r, i) <==> r.loadErr && !r.storeErr && (c.writebackStage || !LocalFault(r, i))
  {
  }

  /** In ID: fetch fault, illegal instruction, environment call, breakpoint. */
  lemma LocalPriority(c: Config, r: Registers, i: Inputs)
    ensures var clear, v := !(c.writebackStage && (r.storeErr || r.loadErr)), i.instrValid;
      && (Prio(c, FetchFault, r, i) <==> clear && v && i.fetchErr)
      && (Prio(c, IllegalInstruction, r, i) <==> clear && r.illegalInsn && !(v && i.fetchErr))
      && (Prio(c, EnvironmentCall, r, i) <==> clear && v && i.ecallInsn && !i.fetchErr && !r.illegalInsn)
      && (Prio(c, Breakpoint, r, i) <==>
            clear && v && i.ebrkInsn && !i.ecallInsn && !i.fetchErr && !r.illegalInsn)
  {
  }

  /** The privileged architecture's number of each exception. */
  predicate Numbered(s: Source, i: Inputs, n: nat) {
    match s
    case FetchFault => n == 1
    case IllegalInstruction => n == 2
    case Breakpoint => n == 3
    case LoadFault => n == 5
    case StoreFault => n == 7
    case EnvironmentCall => n == if i.priv.MachineLevel? then 11 else 8
  }

  /** The address or instruction word that belongs in mtval. */
  predicate Valued(s: Source, i: Inputs, v: Address) {
    match s
    case FetchFault => if i.fetchErrPlus2 then v == i.pc + 2 else v == i.pc
    case IllegalInstruction => v == i.mtvalInstr
    case Breakpoint => v == 0
    case LoadFault => v == i.lsuAddr
    case StoreFault => v == i.lsuAddr
    case EnvironmentCall => v == 0
  }

  /** The EBREAK in ID goes to debug mode. */
  predicate BreaksIntoDebug(r: Registers, i: Inputs) {
    r.debugMode || (i.priv.MachineLevel? && i.ebreakM) || (i.priv.UserLevel? && i.ebreakU)
  }

  /** FLUSH reports the exception that has priority under its number, jumps, and saves the right PC. */
  lemma ExceptionReport(c: Config, r: Registers, i: Inputs, s: Source)
    requires r.phase.Flush? && (r.excReq || r.storeErr || r.loadErr) && Prio(c, s, r, i)
    requires !(s.Breakpoint? && BreaksIntoDebug(r, i))
    ensures var k := Controls(c, r, i);
      && !k.report.cause.irqExt && !k.report.cause.irqInt && Numbered(s, i, k.report.cause.lower)
      && Valued(s, i, k.report.mtval)
      && k.redirect == Redirect(true, PcExc, if r.debugMode then ExcPcDbgExc else ExcPcExc)
      && k.next == (if r.debugPrio then DbgTakenIf else Decode)
      && k.debugModeD == r.debugMode && k.nmiModeD == r.nmiMode
      && k.flushId && k.haltIf && k.saves.cause && !k.saves.fromIf && !k.saves.debug
      && (k.saves.fromWb <==> c.writebackStage && (r.storeErr || r.loadErr))
      && (k.saves.fromId <==> c.writebackStage && !r.storeErr && !r.loadErr)
  {
    WinnerReported(c, r, i, s);
    NotIntoDebug(c, r, i, s);
    NotDebugFirst(c, r, i, s);
    hide Prio, TrapReport, DebugFirst, EbreakDebugs, Numbered, Valued;
    hide AsleepRow, FirstFetchRow, DecodeRow, IrqRow, DebugRow, SpecialRow;
  }

  lemma NotDebugFirst(c: Config, r: Registers, i: Inputs, s: Source)
    requires Prio(c, s, r, i) && !(s.Breakpoint? && BreaksIntoDebug(r, i))
    ensures DebugFirst(c, r, i) == r.debugPrio
  {
    hide Prio;
    OneWinner(c, r, i, s);
  }

  lemma NotIntoDebug(c: Config, r: Registers, i: Inputs, s: Source)
    requires Prio(c, s, r, i) && !(s.Breakpoint? && BreaksIntoDebug(r, i))
    ensures !EbreakDebugs(c, r, i)
  {
    hide Prio;
    OneWinner(c, r, i, s);
  }

  lemma WinnerReported(c: Config, r: Registers, i: Inputs, s: Source)
    requires Prio(c, s, r, i) && !(s.Breakpoint? && BreaksIntoDebug(r, i))
    ensures var report := TrapReport(c, r, i);
      && !report.cause.irqExt && !report.cause.irqInt
      && Numbered(s, i, report.cause.lower) && Valued(s, i, report.mtval)
  {
    hide Prio, AnyRaised, EbreakDebugs, Winner, SourceCause, SourceValue, Numbered, Valued, BreaksIntoDebug;
    NotIntoDebug(c, r, i, s);
    WinnerIs(c, r, i, s);
    SourceReport(s, i);
  }

  lemma WinnerIs(c: Config, r: Registers, i: Inputs, s: Source)
    requires Prio(c, s, r, i)
    ensures AnyRaised(r, i) && Winner(c, r, i) == s
  {
    Raises(c, r, i, s);
    OneWinner(c, r, i, s);
  }

  lemma SourceReport(s: Source, i: Inputs)
    ensures var cause := SourceCause(s, i);
      !cause.irqExt && !cause.irqInt && Numbered(s, i, cause.lower) && Valued(s, i, SourceValue(s, i))
  {
  }

  lemma Raises(c: Config, r: Registers, i: Inputs, s: Source)
    requires Prio(c, s, r, i)
    ensures AnyRaised(r, i)
  {
  }

  /** An EBREAK into debug mode neither jumps nor flushes nor saves; debug entry follows. */
  lemma BreakpointEntersDebug(c: Config, r: Registers, i: Inputs)
    requires r.phase.Flush? && (r.excReq || r.storeErr || r.loadErr) && Prio(c, Breakpoint, r, i)
    requires BreaksIntoDebug(r, i)
    ensures var k := Controls(c, r, i);
      && !k.redirect.jump && !k.flushId && k.saves == Saves(false, false, k.saves.fromWb, false, false)
      && k.next == (if r.debugPrio && !((i.priv.MachineLevel? && i.ebreakM) || (i.priv.UserLevel? && i.ebreakU))
                    then DbgTakenIf else DbgTakenId)
  {
    hide Prio, TrapReport;
    hide AsleepRow, FirstFetchRow, DecodeRow, IrqRow, DebugRow, SpecialRow;
  }

  // ---------------------------------------------------------------------------------------------
  // Special instructions

  /** FLUSH without an exception: MRET and DRET jump to their PCs and restore, WFI sleeps, the rest just flushes. */
  lemma SpecialInstructions(c: Config, r: Registers, i: Inputs)
    requires r.phase.Flush? && !r.excReq && !r.storeErr && !r.loadErr
    ensures var k, mret, dret := Controls(c, r, i), i.instrValid && i.mretInsn, i.instrValid && i.dretInsn;
      && k.restoreMret == mret && k.restoreDret == (dret && !mret)
      && k.redirect.jump == (mret || dret)
      && (mret ==> k.redirect.mux == PcEret && k.debugModeD == r.debugMode && !k.nmiModeD)
      && (!mret && dret ==> k.redirect.mux == PcDret && !k.debugModeD && k.nmiModeD == r.nmiMode)
      && (!mret && !dret ==> k.debugModeD == r.debugMode && k.nmiModeD == r.nmiMode)
      && k.saves == Saves(false, false, false, false, false) && k.flushId && k.haltIf
      && (k.next.WaitSleep? ==> i.instrValid && i.wfiInsn && !mret && !dret)
      && (i.instrValid && i.wfiInsn && !mret && !dret && !r.debugPrio ==> k.next.WaitSleep?)
      && (!k.next.WaitSleep? ==> k.next.Decode? || (k.next.DbgTakenIf? && r.debugPrio))
  {
    hide Prio;
    hide AsleepRow, FirstFetchRow, DecodeRow, IrqRow, DebugRow, TrapRow;
  }

  // ---------------------------------------------------------------------------------------------
  // Debug entry

  /** The cause register: trigger, then EBREAK, then request, then step. */
  lemma DebugCauses(c: Config, r: Registers, i: Inputs)
    ensures var cause := Next(c, r, i).debugCause;
      var breaks := Prio(c, Breakpoint, r, i)
                    && ((i.priv.MachineLevel? && i.ebreakM) || (i.priv.UserLevel? && i.ebreakU));
      var steps := if i.instrValid then !r.debugMode && i.singleStep else r.stepping;
      && (cause.TriggerCause? <==> i.trigger)
      && (cause.EbreakCause? <==> breaks && !i.trigger)
      && (cause.HaltCause? <==> i.debugReq && !i.trigger && !breaks)
      && (cause.StepCause? <==> steps && !i.debugReq && !i.trigger && !breaks)
  {
    hide Prio, Controls, Delivers, Records;
  }

  /** The two debug entries: PC from IF always, from ID for an EBREAK that enters debug mode, else nothing saved. */
  lemma DebugEntry(c: Config, r: Registers, i: Inputs)
    requires r.phase.DbgTakenIf? || r.phase.DbgTakenId?
    ensures var k := Controls(c, r, i);
      var breaks := !r.debugMode && ((i.priv.MachineLevel? && i.ebreakM) || (i.priv.UserLevel? && i.ebreakU));
      && k.next.Decode? && k.debugModeD && k.flushId && k.pulses.entering && !k.pulses.run
      && k.redirect == Redirect(true, PcExc, ExcPcDbd)
      && k.saves == (if r.phase.DbgTakenIf? then Saves(true, false, false, true, true)
                     else if breaks then Saves(false, true, false, true, true)
                     else Saves(false, false, false, false, false))
  {
    hide AsleepRow, FirstFetchRow, DecodeRow, IrqRow, TrapRow, SpecialRow;
  }

  /**
   * DECODE with nothing in ID or writeback: a debug request, a step or a trigger is served first, then
   * an interrupt, and the cause recorded in the same cycle names what brought the controller there.
   */
  lemma QuietDecode(c: Config, r: Registers, i: Inputs)
    requires r.phase.Decode? && !i.instrValid && !i.illegalInsn && i.readyWb && !i.stallId && !i.stallWb
    requires !i.loadErr && !i.storeErr
    ensures var k := Controls(c, r, i);
      var debugs := !r.debugMode && (i.debugReq || r.stepping || i.trigger);
      var irqs := !r.debugMode && !r.nmiMode && !i.singleStep
                  && (i.nmiExt || (c.memECC && r.intgPending) || (i.irqPending && (i.mie || i.priv.UserLevel?)));
      && (k.next.DbgTakenIf? <==> debugs)
      && (k.next.IrqTaken? <==> irqs && !debugs)
      && (k.next.Decode? <==> !irqs && !debugs)
      && k.haltIf == (debugs || irqs || !i.instrExec) && !k.retainId
      && (debugs && !r.illegalInsn ==>
            Next(c, r, i).debugCause == if i.trigger then TriggerCause else if i.debugReq then HaltCause else StepCause)
  {
    hide AsleepRow, FirstFetchRow, IrqRow, DebugRow, TrapRow, SpecialRow, Trapping, Delivers, Records;
  }

  // ---------------------------------------------------------------------------------------------
  // Boot, sleep and fetch

  /** RESET and BOOT_SET jump to the boot address; fetching begins in BOOT_SET. */
  lemma Boot(c: Config, r: Registers, i: Inputs)
    requires r.phase.Reset? || r.phase.BootSet?
    ensures var k := Controls(c, r, i);
      && k.redirect.jump && k.redirect.mux == PcBoot && k.wake.busy && (k.wake.instrReq <==> r.phase.BootSet?)
      && k.next == (if r.phase.Reset? then BootSet else FirstFetch)
      && !k.flushId && !k.retainId && k.debugModeD == r.debugMode && k.nmiModeD == r.nmiMode
      && k.saves == Saves(false, false, false, false, false)
  {
    hide AsleepRow, FirstFetchRow, DecodeRow, IrqRow, DebugRow, TrapRow, SpecialRow, Trapping;
  }

  /**
   * Asleep, nothing is fetched and both stages stay empty. SLEEP is left, and the clock kept running,
   * exactly when an interrupt is pending, debugging asks for it, or sleeping is not allowed.
   */
  lemma Asleep(c: Config, r: Registers, i: Inputs)
    requires r.phase.WaitSleep? || r.phase.Sleep?
    ensures var k := Controls(c, r, i);
      var wakes := r.phase.Sleep? && (i.nmiExt || (c.memECC && r.intgPending) || i.irqPending || i.debugReq
                                      || r.debugMode || i.singleStep);
      && k.haltIf && k.flushId && !k.wake.instrReq && !k.redirect.jump && !k.retainId
      && k.wake.busy == wakes && k.next == (if wakes then FirstFetch else Sleep)
      && k.debugModeD == r.debugMode && k.nmiModeD == r.nmiMode
      && k.saves == Saves(false, false, false, false, false)
  {
    hide FirstFetchRow, DecodeRow, IrqRow, DebugRow, TrapRow, SpecialRow, Trapping;
  }

  /** FIRST_FETCH serves debugging before interrupts, and otherwise runs as soon as an instruction can enter ID. */
  lemma Fetching(c: Config, r: Registers, i: Inputs)
    requires r.phase.FirstFetch?
    ensures var k := Controls(c, r, i);
      var steps := if i.instrValid then i.singleStep else r.stepping;
      var debugs := !r.debugMode && (i.debugReq || steps || i.trigger);
      var irqs := !r.debugMode && !r.nmiMode && !i.singleStep
                  && (i.nmiExt || (c.memECC && r.intgPending) || (i.irqPending && (i.mie || i.priv.UserLevel?)));
      && (k.next.DbgTakenIf? <==> debugs)
      && (k.next.IrqTaken? <==> irqs && !debugs)
      && (k.next.Decode? <==> !irqs && !debugs && i.instrExec && !i.stallId && !i.stallWb)
      && (k.next.FirstFetch? <==> !irqs && !debugs && !(i.instrExec && !i.stallId && !i.stallWb))
      && k.haltIf == (debugs || irqs || !i.instrExec)
      && !k.redirect.jump && !k.flushId && !k.retainId && k.wake == Wake(true, true)
      && k.debugModeD == r.debugMode && k.nmiModeD == r.nmiMode
      && k.saves == Saves(false, false, false, false, false)
  {
    hide AsleepRow, DecodeRow, IrqRow, DebugRow, TrapRow, SpecialRow, Trapping;
  }

  // ---------------------------------------------------------------------------------------------
  // Running

  /** DECODE jumps for a branch or jump the predictor has not followed, and reports one it followed wrongly. */
  lemma Branching(c: Config, r: Registers, i: Inputs)
    requires r.phase.Decode?
    ensures var k := Controls(c, r, i);
      && k.redirect.jump == ((i.branchSet || i.jumpSet) && (!c.branchPredictor || !i.bpTaken))
      && k.redirect.mux == PcJump
      && k.mispredict == (c.branchPredictor && i.bpTaken && i.branchNotSet)
      && k.pulses == Pulses(true, false, i.branchSet, i.jumpSet) && k.wake == Wake(true, true)
      && k.saves == Saves(false, false, false, false, false) && !k.flushId && !k.restoreMret && !k.restoreDret
  {
    hide AsleepRow, FirstFetchRow, IrqRow, DebugRow, TrapRow, SpecialRow, Trapping;
    hide HandleIrq, EnterDebug, SpecialRequest, WbException;
  }

  /** What DECODE keeps in ID: special instructions, exceptions, CSR flushes, and whatever waits for a memory fault. */
  predicate NeedsFlush(i: Inputs) {
    || (i.instrValid && (i.wfiInsn || i.mretInsn || i.dretInsn || i.csrPipeFlush))
    || (i.instrValid && (i.ecallInsn || i.ebrkInsn || i.fetchErr)) || i.illegalInsn
    || i.loadErr || i.storeErr
  }

  /** DECODE keeps such an instruction, and flushes once writeback is done or has failed itself. */
  lemma DecodeFlushes(c: Config, r: Registers, i: Inputs)
    requires r.phase.Decode?
    ensures var k := Controls(c, r, i);
      && k.retainId == NeedsFlush(i)
      && (k.next.Flush? <==>
            NeedsFlush(i)
            && (i.readyWb || (c.writebackStage && (r.loadErr || r.storeErr || i.loadErr || i.storeErr))))
  {
    hide AsleepRow, FirstFetchRow, IrqRow, DebugRow, TrapRow, SpecialRow, Trapping, HandleIrq, EnterDebug;
  }

  /** While debugging or an interrupt waits for ID and writeback to drain, nothing more is let into ID. */
  lemma DecodeHalts(c: Config, r: Registers, i: Inputs)
    requires r.phase.Decode?
    ensures var steps := if i.instrValid then i.singleStep else r.stepping;
      var debugs := !r.debugMode && (i.debugReq || steps || i.trigger);
      var irqs := !r.debugMode && !r.nmiMode && !i.singleStep
                  && (i.nmiExt || (c.memECC && r.intgPending) || (i.irqPending && (i.mie || i.priv.UserLevel?)));
      var drains := i.stallId || i.stallWb || i.instrValid || !i.readyWb;
      Controls(c, r, i).haltIf <==> !i.instrExec || ((debugs || irqs) && (drains || !NeedsFlush(i)))
  {
    hide AsleepRow, FirstFetchRow, IrqRow, DebugRow, TrapRow, SpecialRow, Trapping;
  }

  /** The registers the next cycle starts from besides state and modes. */
  lemma FloppedWires(c: Config, r: Registers, i: Inputs)
    ensures var n, flushing := Next(c, r, i), r.phase.Flush?;
      && n.loadErr == i.loadErr && n.storeErr == i.storeErr
      && n.illegalInsn == (i.illegalInsn && !flushing)
      && n.excReq == (!flushing && (i.illegalInsn || (i.instrValid && (i.ecallInsn || i.ebrkInsn || i.fetchErr))))
      && n.stepping == (if i.instrValid then !r.debugMode && i.singleStep else r.stepping)
      && n.debugPrio == (!r.debugMode && (i.debugReq || n.stepping))
  {
    hide Controls, NextDebugCause, Delivers, Records;
  }

  /** Each pulse and the predictor's report in its own states, and where fetching stops and the modes move. */
  predicate InPlace(k: Control, r: Registers) {
    && (k.mispredict || k.retainId || k.pulses.takenBranch || k.pulses.jump ==> r.phase.Decode?)
    && (k.pulses.run <==> r.phase.Decode?) && (k.pulses.entering <==> r.phase.DbgTakenIf? || r.phase.DbgTakenId?)
    && (k.restoreMret || k.restoreDret ==> r.phase.Flush?)
    && (k.wake.instrReq <==> !r.phase.Reset? && !r.phase.WaitSleep? && !r.phase.Sleep?)
    && (!k.wake.busy ==> r.phase.WaitSleep? || r.phase.Sleep?)
    && (k.debugModeD != r.debugMode ==> r.phase.DbgTakenIf? || r.phase.DbgTakenId? || r.phase.Flush?)
    && (k.nmiModeD != r.nmiMode ==> r.phase.IrqTaken? || r.phase.Flush?)
  }

  lemma TrapInPlace(c: Config, r: Registers, i: Inputs)
    requires r.phase.Flush? && Trapping(r)
    ensures InPlace(Controls(c, r, i), r)
  {
    hide Trapping, TrapReport, Prio, EbreakDebugs, DebugFirst;
    hide AsleepRow, FirstFetchRow, DecodeRow, IrqRow, DebugRow, SpecialRow;
  }

  lemma SpecialInPlace(c: Config, r: Registers, i: Inputs)
    requires r.phase.Flush? && !Trapping(r)
    ensures InPlace(Controls(c, r, i), r)
  {
    hide Trapping, DebugFirst, Prio;
    hide AsleepRow, FirstFetchRow, DecodeRow, IrqRow, DebugRow, TrapRow;
  }

  lemma DecodeInPlace(c: Config, r: Registers, i: Inputs)
    requires r.phase.Decode?
    ensures InPlace(Controls(c, r, i), r)
  {
    hide HandleIrq, EnterDebug, SpecialRequest, WbException;
    hide AsleepRow, FirstFetchRow, IrqRow, DebugRow, TrapRow, SpecialRow;
  }

  lemma DozeInPlace(c: Config, r: Registers, i: Inputs)
    requires r.phase.Reset? || r.phase.BootSet? || r.phase.WaitSleep? || r.phase.Sleep? || r.phase.FirstFetch?
    ensures InPlace(Controls(c, r, i), r)
  {
    hide HandleIrq, EnterDebug, WakesUp, Trapping;
    hide DecodeRow, IrqRow, DebugRow, TrapRow, SpecialRow;
  }

  lemma EntryInPlace(c: Config, r: Registers, i: Inputs)
    requires r.phase.IrqTaken? || r.phase.DbgTakenIf? || r.phase.DbgTakenId?
    ensures InPlace(Controls(c, r, i), r)
  {
    hide HandleIrq, IrqCause, NmiPending, Trapping;
    hide AsleepRow, FirstFetchRow, DecodeRow, TrapRow, SpecialRow;
  }

  lemma SignalsByState(c: Config, r: Registers, i: Inputs)
    ensures InPlace(Controls(c, r, i), r)
  {
    hide InPlace, Controls, Trapping;
    if r.phase.Flush? {
      if Trapping(r) {
        TrapInPlace(c, r, i);
      } else {
        SpecialInPlace(c, r, i);
      }
    } else if r.phase.Decode? {
      DecodeInPlace(c, r, i);
    } else if r.phase.IrqTaken? || r.phase.DbgTakenIf? || r.phase.DbgTakenId? {
      EntryInPlace(c, r, i);
    } else {
      DozeInPlace(c, r, i);
    }
  }

  /** IF is halted whenever fetching is disabled, and otherwise only by a state that wants it. */
  lemma HaltsByState(c: Config, r: Registers, i: Inputs)
    ensures var k, s := Controls(c, r, i), r.phase;
      && (!i.instrExec ==> k.haltIf)
      && (s.Reset? || s.BootSet? || s.IrqTaken? || s.DbgTakenIf? || s.DbgTakenId? ==> k.haltIf == !i.instrExec)
      && (s.WaitSleep? || s.Sleep? || s.Flush? ==> k.haltIf)
  {
    hide Trapping, HandleIrq, EnterDebug, SpecialRequest, WbException, TrapReport, Prio, EbreakDebugs, DebugFirst;
  }

  /**
   * An integrity error is recorded with its address when none is pending, and dropped in the cycle in
   * which IRQ_TAKEN takes it as an internal NMI.
   */
  lemma IntegrityRecord(c: Config, r: Registers, i: Inputs)
    ensures var n := Next(c, r, i);
      var taken := r.phase.IrqTaken? && !r.debugMode && !r.nmiMode && !i.singleStep && !i.nmiExt && c.memECC;
      var recorded := c.memECC && i.intgErr && !r.intgPending;
      && (n.intgPending <==> recorded || (r.intgPending && !taken))
      && n.intgAddr == if recorded then i.lsuAddr else r.intgAddr
  {
    hide Controls, NextDebugCause, DebugPriority, ExcRequest;
  }

  /** The wires to the ID and IF stages. */
  lemma Handshakes(c: Config, r: Registers, i: Inputs)
    ensures var out := Drive(c, r, i);
      var stall, k := i.stallId || i.stallWb, out.ctl;
      && (out.idInReady <==> !stall && !k.haltIf && !k.retainId)
      && (out.validClear <==> k.flushId || (!stall && !k.retainId))
      && (out.wbException <==> c.writebackStage && (r.loadErr || r.storeErr || i.loadErr || i.storeErr))
      && (out.idException <==>
            && !out.wbException && !r.phase.Flush?
            && (i.illegalInsn || (i.instrValid && (i.ecallInsn || i.ebrkInsn || i.fetchErr))))
  {
    hide Controls;
  }
}
