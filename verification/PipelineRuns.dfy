/**
 * What the controller keeps over whole runs of the pipeline from reset: interrupts find the pipe
 * empty, exactly one exception has priority, memory faults are never lost, debug mode switches
 * with an empty pipe, single stepping admits one instruction, integrity errors are delivered
 * once, and every admitted instruction completes once or is killed by an exception.
 */
module PipelineRuns {
  import opened Binary
  import opened Controller
  import opened Pipeline

  /** The state after run, started at reset. */
  function Reached(c: Config, run: seq<Stimulus>): Pipe {
    After(c, POWER_ON, run)
  }

  lemma {:induction false} InvAlong(c: Config, p: Pipe, run: seq<Stimulus>)
    requires Inv(c, p)
    ensures Inv(c, After(c, p, run))
    decreases |run|
  {
    hide Inv, Advance;
    if run != [] {
      StepKeeps(c, p, run[0]);
      InvAlong(c, Advance(c, p, run[0]), run[1..]);
    }
  }

  lemma InvReached(c: Config, run: seq<Stimulus>)
    ensures Inv(c, Reached(c, run))
  {
    hide Advance;
    InvAlong(c, POWER_ON, run);
  }

  // ---------------------------------------------------------------------------------------------
  // Interrupts and exceptions

  /** An interrupt is only ever taken with ID and writeback empty, outside debug and NMI mode. */
  lemma PipeEmptyOnIrq(c: Config, run: seq<Stimulus>, s: Stimulus)
    requires !Reached(c, run).ctl.phase.IrqTaken? && Advance(c, Reached(c, run), s).ctl.phase.IrqTaken?
    ensures !Reached(c, run).idValid && ReadyWb(Reached(c, run), s)
    ensures var a := Advance(c, Reached(c, run), s);
      !a.idValid && a.wb.Vacant? && !a.ctl.debugMode && !a.ctl.nmiMode
  {
    hide Feed, Controls, Reached;
    var p := Reached(c, run);
    InvReached(c, run);
    StepKeeps(c, p, s);
    if p.ctl.phase.Decode? {
      DecodeMoves(c, p, s);
    } else if p.ctl.phase.Flush? {
      FlushNext(c, p.ctl, Feed(c, p, s));
    }
  }

  /** Exactly one exception source has priority when FLUSH takes an exception. */
  lemma ExceptionPrioOneHot(c: Config, run: seq<Stimulus>, s: Stimulus)
    requires Reached(c, run).ctl.phase.Flush? && Trapping(Reached(c, run).ctl)
    ensures var r, i := Reached(c, run).ctl, Feed(c, Reached(c, run), s);
      exists x: Source :: Prio(c, x, r, i) && forall y: Source :: Prio(c, y, r, i) ==> y == x
  {
    hide Feed, Controls, Reached, Prio, Illegal;
    var p := Reached(c, run);
    InvReached(c, run);
    Wires(c, p, s);
    var x := Winner(c, p.ctl, Feed(c, p, s));
    forall y: Source | Prio(c, y, p.ctl, Feed(c, p, s))
      ensures y == x
    {
      OneWinner(c, p.ctl, Feed(c, p, s), x);
    }
  }

  /** An erroneous memory response only comes in DECODE and sends it to FLUSH with the error recorded. */
  lemma MemoryFaultFlushes(c: Config, p: Pipe, s: Stimulus)
    requires Contains(c) && Inv(c, p) && (LoadFails(p, s) || StoreFails(p, s))
    ensures p.ctl.phase.Decode? && (c.writebackStage ==> !Completes(c, p, s))
    ensures var a := Advance(c, p, s);
      && a.ctl.phase.Flush? && a.ctl.loadErr == LoadFails(p, s) && a.ctl.storeErr == StoreFails(p, s)
      && (!c.writebackStage ==> !Raises(a) && !a.ctl.illegalInsn)
  {
    hide Feed, Controls, Prio, ExcRequest, IllegalNow, StepNow, NextDebugCause, Delivers, Records, Stays;
    Wires(c, p, s);
    Requests(c, p, s);
    DecodeMoves(c, p, s);
  }

  /**
   * No memory fault is lost or overtaken: the cycle after the erroneous response reports it, with
   * the load-store unit's address, and saves the faulting instruction's PC from writeback.
   */
  lemma MemoryFaultIsReported(c: Config, run: seq<Stimulus>, s: Stimulus, after: Stimulus)
    requires Contains(c) && (LoadFails(Reached(c, run), s) || StoreFails(Reached(c, run), s))
    ensures var p, a := Reached(c, run), Advance(c, Reached(c, run), s);
      var k := Signals(c, a, after);
      && k.report.cause == (if LoadFails(p, s) then CAUSE_LOAD_ACCESS_FAULT else CAUSE_STORE_ACCESS_FAULT)
      && k.report.mtval == after.lsuAddr
      && k.saves == Saves(false, false, c.writebackStage, true, false)
      && k.redirect.jump && k.redirect.mux.PcExc? && k.flushId
  {
    hide Feed, Reached, Inv, Raises, Advance;
    var p := Reached(c, run);
    var a := Advance(c, p, s);
    InvReached(c, run);
    MemoryFaultFlushes(c, p, s);
    StepKeeps(c, p, s);
    FaultRow(c, a, after);
  }

  lemma FaultWins(c: Config, a: Pipe, s: Stimulus)
    requires Contains(c) && Inv(c, a) && a.ctl.phase.Flush? && (a.ctl.loadErr || a.ctl.storeErr)
    requires !c.writebackStage ==> !Raises(a) && !a.ctl.illegalInsn
    ensures Prio(c, if a.ctl.loadErr then LoadFault else StoreFault, a.ctl, Feed(c, a, s))
  {
    hide Feed, FetchErr, Ecall, Ebreak, FlushInv, Owned;
    Wires(c, a, s);
  }

  lemma FaultRow(c: Config, a: Pipe, s: Stimulus)
    requires Contains(c) && Inv(c, a) && a.ctl.phase.Flush? && (a.ctl.loadErr || a.ctl.storeErr)
    requires !c.writebackStage ==> !Raises(a) && !a.ctl.illegalInsn
    ensures var k := Signals(c, a, s);
      && k.report.cause == (if a.ctl.loadErr then CAUSE_LOAD_ACCESS_FAULT else CAUSE_STORE_ACCESS_FAULT)
      && k.report.mtval == s.lsuAddr
      && k.saves == Saves(false, false, c.writebackStage, true, false)
      && k.redirect.jump && k.redirect.mux.PcExc? && k.flushId
  {
    hide Feed, Prio, Winner, FetchErr, Ecall, Ebreak, DebugFirst, EbreakIntoDebug, Raises;
    hide DecodeRow, FirstFetchRow, IrqRow, DebugRow, AsleepRow, SpecialRow;
    Wires(c, a, s);
    FaultWins(c, a, s);
    var x := if a.ctl.loadErr then LoadFault else StoreFault;
    OneWinner(c, a.ctl, Feed(c, a, s), x);
    assert AnyRaised(a.ctl, Feed(c, a, s));
    OneWinner(c, a.ctl, Feed(c, a, s), Winner(c, a.ctl, Feed(c, a, s)));
  }

  // ---------------------------------------------------------------------------------------------
  // Debug mode

  /** Debug mode only ever changes with a flush and a jump, and finds every stage empty afterwards. */
  lemma DebugModeSwitchesEmpty(c: Config, run: seq<Stimulus>, s: Stimulus)
    requires Advance(c, Reached(c, run), s).ctl.debugMode != Reached(c, run).ctl.debugMode
    ensures var p := Reached(c, run);
      var a := Advance(c, p, s);
      && Signals(c, p, s).flushId && Signals(c, p, s).redirect.jump
      && !a.idValid && a.wb.Vacant? && a.ctl.phase.Decode? && (Contains(c) ==> a.lsu.Idle())
      && (p.ctl.debugMode ==> p.ctl.phase.Flush? && p.id.op.DretOp? && p.finished)
  {
    hide Reached, Controls, Feed, ExcRequest, IllegalNow, StepNow, DebugPriority, NextDebugCause, Records, Delivers;
    var p := Reached(c, run);
    InvReached(c, run);
    DebugSwitch(c, p, s);
  }

  lemma OtherRowsKeepDebugMode(c: Config, r: Registers, i: Inputs)
    requires !r.phase.DbgTakenIf? && !r.phase.DbgTakenId? && !r.phase.Flush?
    ensures Controls(c, r, i).debugModeD == r.debugMode
  {
    hide HandleIrq, EnterDebug, SpecialRequest, Delivers, WakesUp, IrqCause, Stall, WbException, IdWbPending, EntersNmi;
    hide DebugRow, TrapRow, SpecialRow, Trapping;
  }

  /** Only the debug entries set debug mode and only a DRET in FLUSH clears it; either way with a flush and a jump. */
  lemma DebugModeSource(c: Config, r: Registers, i: Inputs)
    requires Controls(c, r, i).debugModeD != r.debugMode
    ensures if r.debugMode then LeavesDebug(r, i) else r.phase.DbgTakenIf? || r.phase.DbgTakenId?
    ensures Controls(c, r, i).flushId && Controls(c, r, i).redirect.jump
    ensures (r.phase.Flush? ==> !r.debugPrio) ==> Controls(c, r, i).next.Decode?
  {
    hide AsleepRow, FirstFetchRow, DecodeRow, IrqRow, Prio, TrapReport, EbreakDebugs, Dret, Mret, Wfi, EbreakIntoDebug;
    hide Trapping, SavesDebugFromId;
    if !r.phase.DbgTakenIf? && !r.phase.DbgTakenId? && !r.phase.Flush? {
      OtherRowsKeepDebugMode(c, r, i);
      assert false;
    }
  }

  /** A flush with a jump outside DECODE leaves every stage empty. */
  lemma Flushed(c: Config, p: Pipe, s: Stimulus)
    requires Inv(c, p) && !p.ctl.phase.Decode? && Signals(c, p, s).flushId && Signals(c, p, s).redirect.jump
    ensures var a := Advance(c, p, s); !a.idValid && a.wb.Vacant? && (Contains(c) ==> a.lsu.Idle())
  {
    hide Feed, Controls, ExcRequest, IllegalNow, NextDebugCause, StepNow, DebugPriority, Delivers, Records, Raises;
  }

  lemma DebugSwitch(c: Config, p: Pipe, s: Stimulus)
    requires Inv(c, p) && Signals(c, p, s).debugModeD != p.ctl.debugMode
    ensures var a := Advance(c, p, s);
      && Signals(c, p, s).flushId && Signals(c, p, s).redirect.jump
      && !a.idValid && a.wb.Vacant? && a.ctl.phase.Decode? && (Contains(c) ==> a.lsu.Idle())
      && (p.ctl.debugMode ==> p.ctl.phase.Flush? && p.id.op.DretOp? && p.finished)
  {
    hide Feed, Controls, ExcRequest, IllegalNow, NextDebugCause, StepNow;
    hide DebugPriority, Delivers, Records, Special, Stall;
    Specials(c, p, s);
    DebugModeSource(c, p.ctl, Feed(c, p, s));
    Flushed(c, p, s);
  }

  // ---------------------------------------------------------------------------------------------
  // Single step

  function Admissions(c: Config, p: Pipe, run: seq<Stimulus>): nat
    decreases |run|
  {
    hide *;
    if run == [] then 0 else Digit(Admits(c, p, run[0])) + Admissions(c, Advance(c, p, run[0]), run[1..])
  }

  /** Debug mode is not entered before the last cycle of run. */
  predicate OutOfDebug(c: Config, p: Pipe, run: seq<Stimulus>)
    decreases |run|
  {
    hide *;
    run != [] ==> !p.ctl.debugMode && OutOfDebug(c, Advance(c, p, run[0]), run[1..])
  }

  predicate Stepping(run: seq<Stimulus>) {
    forall k :: 0 <= k < |run| ==> run[k].singleStep
  }

  /** Neither a debug request nor a trigger in any cycle. */
  predicate Undisturbed(run: seq<Stimulus>) {
    forall k :: 0 <= k < |run| ==> !run[k].debugReq && !run[k].trigger
  }

  /** Waiting for the instruction to step; a late memory fault may pass through FLUSH meanwhile. */
  predicate Fresh(p: Pipe) {
    && !p.idValid && p.wb.Vacant? && !p.ctl.debugMode && !p.ctl.stepping
    && (p.ctl.phase.Decode? || (p.ctl.phase.Flush? && !p.ctl.debugPrio))
  }

  /** About to enter debug mode with ID empty. */
  predicate Entering(p: Pipe) {
    (p.ctl.phase.DbgTakenIf? || p.ctl.phase.DbgTakenId?) && !p.ctl.debugMode
  }

  /** The stepped instruction is on its way, and so is the debug entry. */
  predicate Stepped(p: Pipe) {
    !p.ctl.debugMode
    && ((p.ctl.phase.Decode? && (p.idValid || p.ctl.stepping)) || (p.ctl.phase.Flush? && p.ctl.debugPrio))
  }

  /** A DRET leaves the pipe empty with the step flag clear. */
  lemma DretIsFresh(c: Config, p: Pipe, s: Stimulus)
    requires Inv(c, p) && LeavesDebug(p.ctl, Feed(c, p, s))
    ensures Fresh(Advance(c, p, s))
  {
  }

  lemma FreshStep(c: Config, p: Pipe, s: Stimulus)
    requires Inv(c, p) && Fresh(p) && s.singleStep
    ensures var a := Advance(c, p, s);
      if Admits(c, p, s) then Stepped(a)
      else Fresh(a) || ((Entering(a) || Stepped(a)) && (s.debugReq || s.trigger))
  {
    hide Inv, Admits, Advance, Entering, Stepped;
    if p.ctl.phase.Decode? {
      FreshDecode(c, p, s);
    } else {
      FreshFlush(c, p, s);
    }
  }

  lemma FreshDecode(c: Config, p: Pipe, s: Stimulus)
    requires Inv(c, p) && Fresh(p) && s.singleStep && p.ctl.phase.Decode?
    ensures var a := Advance(c, p, s);
      if Admits(c, p, s) then Stepped(a)
      else Fresh(a) || ((Entering(a) || Stepped(a)) && (s.debugReq || s.trigger))
  {
    hide Feed, WbException, ExcRequest, IllegalNow, NextDebugCause, Records, Delivers, Prio, SpecialRequest;
    hide AsleepRow, FirstFetchRow, IrqRow, DebugRow, TrapRow, SpecialRow, MemoryInv, FlushInv, NmiPending;
    hide NextMulti, NextLsu, LoadFails, StoreFails;
    Wires(c, p, s);
    Specials(c, p, s);
  }

  lemma FreshFlush(c: Config, p: Pipe, s: Stimulus)
    requires Inv(c, p) && Fresh(p) && p.ctl.phase.Flush?
    ensures !Admits(c, p, s) && Fresh(Advance(c, p, s))
  {
    hide Feed, ExcRequest, IllegalNow, NextDebugCause, Records, Delivers, Stall, TrapReport, HandleIrq, EnterDebug;
    hide AsleepRow, FirstFetchRow, DecodeRow, IrqRow, DebugRow, MemoryInv, NextMulti, NextLsu;
    Wires(c, p, s);
    Specials(c, p, s);
  }

  lemma SteppedStep(c: Config, p: Pipe, s: Stimulus)
    requires Inv(c, p) && Stepped(p) && s.singleStep
    ensures var a := Advance(c, p, s);
      !Admits(c, p, s) && (Stepped(a) || Entering(a))
  {
    hide Inv, Admits, Advance, Entering;
    if p.ctl.phase.Decode? {
      SteppedDecode(c, p, s);
    } else {
      SteppedFlush(c, p, s);
    }
  }

  lemma SteppedDecode(c: Config, p: Pipe, s: Stimulus)
    requires Inv(c, p) && Stepped(p) && s.singleStep && p.ctl.phase.Decode?
    ensures var a := Advance(c, p, s);
      !Admits(c, p, s) && (Stepped(a) || Entering(a))
  {
    hide Feed, SpecialRequest, HandleIrq, WbException, ExcRequest, IllegalNow, NextDebugCause, Records, Delivers, Prio;
    hide AsleepRow, FirstFetchRow, IrqRow, DebugRow, TrapRow, SpecialRow, NextSlot, Completes, Executing, Stall;
    Wires(c, p, s);
    DecodeMoves(c, p, s);
  }

  lemma SteppedFlush(c: Config, p: Pipe, s: Stimulus)
    requires Inv(c, p) && Stepped(p) && p.ctl.phase.Flush?
    ensures !Admits(c, p, s) && Entering(Advance(c, p, s))
  {
    hide Feed, ExcRequest, IllegalNow, NextDebugCause, Records, Delivers, Stall, TrapReport, HandleIrq, EnterDebug;
    hide AsleepRow, FirstFetchRow, DecodeRow, IrqRow, DebugRow, NextSlot, Completes, Executing, MemoryInv;
    Wires(c, p, s);
    Specials(c, p, s);
  }

  lemma EnteringStep(c: Config, p: Pipe, s: Stimulus)
    requires Entering(p)
    ensures !Admits(c, p, s) && Advance(c, p, s).ctl.debugMode
  {
    hide AsleepRow, FirstFetchRow, DecodeRow, IrqRow, TrapRow, SpecialRow, Feed, Trapping, ExcRequest, IllegalNow;
    hide NextDebugCause, StepNow, DebugPriority, SavesDebugFromId, Records, Delivers, NextSlot, Completes;
  }

  lemma {:induction false} NoneBeforeEntry(c: Config, p: Pipe, run: seq<Stimulus>)
    requires Inv(c, p) && (Stepped(p) || Entering(p)) && Stepping(run) && OutOfDebug(c, p, run)
    ensures Admissions(c, p, run) == 0
    decreases |run|
  {
    hide Inv, Stepped, Entering, Advance, Admits;
    if run != [] {
      var a := Advance(c, p, run[0]);
      StepKeeps(c, p, run[0]);
      if Entering(p) {
        EnteringStep(c, p, run[0]);
        assert run[1..] == [];
      } else {
        SteppedStep(c, p, run[0]);
        NoneBeforeEntry(c, a, run[1..]);
      }
    }
  }

  /** From the cycle after a DRET: one instruction at most, and exactly one if nothing else asks for debug mode. */
  lemma {:induction false} FreshAdmitsOne(c: Config, p: Pipe, run: seq<Stimulus>)
    requires Inv(c, p) && Fresh(p) && Stepping(run) && OutOfDebug(c, p, run)
    ensures Admissions(c, p, run) <= 1
    ensures Undisturbed(run) && After(c, p, run).ctl.debugMode ==> Admissions(c, p, run) == 1
    decreases |run|
  {
    hide Inv, Stepped, Entering, Advance, Admits;
    if run != [] {
      var s, a := run[0], Advance(c, p, run[0]);
      StepKeeps(c, p, s);
      FreshStep(c, p, s);
      if !Admits(c, p, s) && Fresh(a) {
        FreshAdmitsOne(c, a, run[1..]);
      } else {
        NoneBeforeEntry(c, a, run[1..]);
      }
    }
  }

  /**
   * Single stepping: after a DRET, with the step bit held, at most one instruction is admitted to
   * ID before debug mode is entered again, whatever stalls, faults, returns or sleeps; and exactly
   * one unless a debug request or a trigger intervenes.
   */
  lemma SingleStep(c: Config, history: seq<Stimulus>, dret: Stimulus, run: seq<Stimulus>)
    requires LeavesDebug(Reached(c, history).ctl, Feed(c, Reached(c, history), dret))
    requires Stepping(run) && OutOfDebug(c, Advance(c, Reached(c, history), dret), run)
    ensures var p := Advance(c, Reached(c, history), dret);
      && Admissions(c, p, run) <= 1
      && (Undisturbed(run) && After(c, p, run).ctl.debugMode ==> Admissions(c, p, run) == 1)
  {
    hide *;
    var p := Reached(c, history);
    InvReached(c, history);
    DretIsFresh(c, p, dret);
    StepKeeps(c, p, dret);
    FreshAdmitsOne(c, Advance(c, p, dret), run);
  }

  // ---------------------------------------------------------------------------------------------
  // Every instruction is accounted for

  /** The instruction in ID has been admitted and not yet completed. */
  predicate InFlight(p: Pipe) {
    p.idValid && !p.finished
  }

  /** FLUSH takes an exception while an uncompleted instruction sits in ID. */
  predicate Kills(p: Pipe) {
    p.ctl.phase.Flush? && Trapping(p.ctl) && InFlight(p)
  }

  function Completions(c: Config, p: Pipe, run: seq<Stimulus>): nat
    decreases |run|
  {
    hide *;
    if run == [] then 0 else
      Digit(Completes(c, p, run[0])) + Completions(c, Advance(c, p, run[0]), run[1..])
  }

  function Killings(c: Config, p: Pipe, run: seq<Stimulus>): nat
    decreases |run|
  {
    hide *;
    if run == [] then 0 else Digit(Kills(p)) + Killings(c, Advance(c, p, run[0]), run[1..])
  }

  /** DECODE only lets go of an instruction that completes. */
  lemma DecodeHolds(c: Config, p: Pipe, s: Stimulus)
    requires Inv(c, p) && p.ctl.phase.Decode? && p.idValid && !Completes(c, p, s)
    ensures Stays(c, p, s)
  {
    hide Feed, Controls, Illegal;
    Wires(c, p, s);
    DecodeMoves(c, p, s);
  }

  /** One cycle: nothing completes twice, and what leaves ID has completed or is killed by an exception. */
  lemma CycleAccount(c: Config, p: Pipe, s: Stimulus)
    requires Inv(c, p)
    ensures Completes(c, p, s) ==> InFlight(p) && !Kills(p)
    ensures p.idValid && !Stays(c, p, s) ==> p.finished || Completes(c, p, s) || Kills(p)
    ensures Digit(InFlight(p)) + Digit(Admits(c, p, s)) ==
            Digit(Completes(c, p, s)) + Digit(Kills(p)) + Digit(InFlight(Advance(c, p, s)))
  {
    hide Feed, Controls, MemoryInv, Next, NextSlot, StallsId, Special, Raises, IdInReady, Signals;
    if Admits(c, p, s) {
      NoOverwrite(c, p, s);
    }
    if p.ctl.phase.Decode? {
      if p.idValid && !Completes(c, p, s) {
        DecodeHolds(c, p, s);
      }
    } else if p.ctl.phase.Flush? {
      FlushEmpties(c, p, s);
    }
  }

  /** An instruction is only written over one that has left. */
  lemma NoOverwrite(c: Config, p: Pipe, s: Stimulus)
    requires Accepts(c, p, s)
    ensures !Stays(c, p, s)
  {
    hide Feed, Controls;
  }

  lemma {:induction false} AccountAlong(c: Config, p: Pipe, run: seq<Stimulus>)
    requires Inv(c, p)
    ensures Digit(InFlight(p)) + Admissions(c, p, run) ==
            Completions(c, p, run) + Killings(c, p, run) + Digit(InFlight(After(c, p, run)))
    decreases |run|
  {
    hide Inv, InFlight, Kills, Advance, Admits, Completes;
    if run != [] {
      StepKeeps(c, p, run[0]);
      CycleAccount(c, p, run[0]);
      AccountAlong(c, Advance(c, p, run[0]), run[1..]);
    }
  }

  /** Admitted instructions have completed, were killed by an exception, or are the one in ID. */
  lemma EveryInstructionAccounted(c: Config, run: seq<Stimulus>)
    ensures Admissions(c, POWER_ON, run) ==
            Completions(c, POWER_ON, run) + Killings(c, POWER_ON, run) + Digit(InFlight(Reached(c, run)))
  {
    hide Advance, Admissions, Completions, Killings, After;
    AccountAlong(c, POWER_ON, run);
  }

  /** With a writeback stage exceptions are precise: the instruction in ID has not completed and never will. */
  lemma PreciseExceptions(c: Config, run: seq<Stimulus>, s: Stimulus)
    requires c.writebackStage && Reached(c, run).ctl.phase.Flush? && Trapping(Reached(c, run).ctl)
    ensures var p := Reached(c, run);
      && !p.finished && !Completes(c, p, s) && !Advance(c, p, s).idValid
      && !Outstanding(p) && Advance(c, p, s).wb.Vacant?
  {
    hide Reached, Feed, Controls, ExcRequest, IllegalNow, NextDebugCause;
    hide StepNow, DebugPriority, Records, Delivers, Stays;
    hide Raises;
    var p := Reached(c, run);
    InvReached(c, run);
    FlushEmpties(c, p, s);
  }

  // ---------------------------------------------------------------------------------------------
  // Integrity errors and NMI mode

  /** The recorded error that waits for an NMI. */
  function Held(r: Registers): seq<Address> {
    if r.intgPending then [r.intgAddr] else []
  }

  /** Addresses of the errors recorded along run, oldest first. */
  function Recorded(c: Config, p: Pipe, run: seq<Stimulus>): seq<Address>
    decreases |run|
  {
    hide *;
    if run == [] then [] else
      (if Records(c, p.ctl, Feed(c, p, run[0])) then [run[0].lsuAddr] else [])
      + Recorded(c, Advance(c, p, run[0]), run[1..])
  }

  /** The controller's outputs announce an internal integrity interrupt. */
  predicate Announces(k: Control) {
    k.saves.cause && k.report.cause == CAUSE_INTERNAL_ECC
  }

  /** Values reported with the announcements along run, oldest first. */
  function Announced(c: Config, p: Pipe, run: seq<Stimulus>): seq<Address>
    decreases |run|
  {
    hide *;
    if run == [] then [] else
      (if Announces(Signals(c, p, run[0])) then [Signals(c, p, run[0]).report.mtval] else [])
      + Announced(c, Advance(c, p, run[0]), run[1..])
  }

  lemma InternalCauseOnlyOnIrq(c: Config, r: Registers, i: Inputs)
    requires !r.phase.IrqTaken?
    ensures !Controls(c, r, i).report.cause.irqInt
  {
    hide EnterDebug, SpecialRequest, DebugFirst, EbreakDebugs, WakesUp, Mret, Dret, Wfi, HandleIrq, TrapReport;
    hide Stall, WbException, IdWbPending, EbreakIntoDebug, Trapping, SavesDebugFromId, IrqRow;
    TrapIsNotInternal(c, r, i);
  }

  lemma TrapIsNotInternal(c: Config, r: Registers, i: Inputs)
    ensures !TrapReport(c, r, i).cause.irqInt
  {
    hide Prio, Winner, SourceValue, EbreakDebugs, AnyRaised;
  }

  lemma AnnouncesOnIrq(c: Config, r: Registers, i: Inputs)
    requires r.phase.IrqTaken?
    ensures Announces(Controls(c, r, i)) <==> Delivers(c, r, i)
    ensures Delivers(c, r, i) ==> Controls(c, r, i).report.mtval == r.intgAddr
  {
    hide AsleepRow, FirstFetchRow, DecodeRow, DebugRow, TrapRow, SpecialRow, Trapping;
  }

  /** The outputs announce an integrity error exactly when the record is handed over, with its address. */
  lemma AnnouncesDelivery(c: Config, r: Registers, i: Inputs)
    ensures Announces(Controls(c, r, i)) <==> Delivers(c, r, i)
    ensures Delivers(c, r, i) ==> Controls(c, r, i).report.mtval == r.intgAddr
  {
    hide Controls;
    if r.phase.IrqTaken? {
      AnnouncesOnIrq(c, r, i);
    } else {
      InternalCauseOnlyOnIrq(c, r, i);
    }
  }

  lemma {:induction false} IntegrityAlong(c: Config, p: Pipe, run: seq<Stimulus>)
    ensures Held(p.ctl) + Recorded(c, p, run) == Announced(c, p, run) + Held(After(c, p, run).ctl)
    decreases |run|
  {
    hide Feed, Controls, Delivers, Records, StepNow, DebugPriority, ExcRequest, IllegalNow, NextDebugCause, Announces;
    hide Admits, Stays, Accepts, NextSlot, Completes, Executing, Responds, Accesses;
    if run != [] {
      var s, a := run[0], Advance(c, p, run[0]);
      IntegrityCycle(c, p, s);
      AnnouncesDelivery(c, p.ctl, Feed(c, p, s));
      IntegrityAlong(c, a, run[1..]);
      var first := if Records(c, p.ctl, Feed(c, p, s)) then [s.lsuAddr] else [];
      var told := if Announces(Signals(c, p, s)) then [Signals(c, p, s).report.mtval] else [];
      assert Held(p.ctl) + first == told + Held(a.ctl);
      Chain(Held(p.ctl), first, told, Held(a.ctl), Recorded(c, a, run[1..]), Announced(c, a, run[1..]),
            Held(After(c, a, run[1..]).ctl));
    }
  }

  /** Two balanced stretches join into one. */
  lemma Chain<T>(held: seq<T>, recorded: seq<T>, told: seq<T>, middle: seq<T>,
                 later: seq<T>, toldLater: seq<T>, end: seq<T>)
    requires held + recorded == told + middle && middle + later == toldLater + end
    ensures held + (recorded + later) == (told + toldLater) + end
  {
    assert held + (recorded + later) == (held + recorded) + later;
    assert (told + middle) + later == told + (middle + later);
  }

  /** One cycle: a record is kept, made, or handed over, and never two of these at once. */
  lemma IntegrityCycle(c: Config, p: Pipe, s: Stimulus)
    ensures var r, i, n := p.ctl, Feed(c, p, s), Advance(c, p, s).ctl;
      && Held(n) == (if Records(c, r, i) then [s.lsuAddr] else if Delivers(c, r, i) then [] else Held(r))
      && (Records(c, r, i) ==> Held(r) == []) && (Delivers(c, r, i) ==> Held(r) == [r.intgAddr])
  {
    hide Feed, Controls, StepNow, DebugPriority, ExcRequest, IllegalNow, NextDebugCause, EntersNmi;
    hide Admits, Stays, Accepts, NextSlot, Completes, Executing, Responds, Accesses;
    Wires(c, p, s);
  }

  /** Every recorded integrity error is announced exactly once, in order, or is the one still held. */
  lemma IntegrityErrorsDeliveredOnce(c: Config, run: seq<Stimulus>)
    ensures Recorded(c, POWER_ON, run) == Announced(c, POWER_ON, run) + Held(Reached(c, run).ctl)
  {
    hide Advance, Recorded, Announced, After;
    IntegrityAlong(c, POWER_ON, run);
  }

  /** NMI mode begins only with an NMI taken outside it and ends only at an MRET in FLUSH. */
  lemma NmiModeChanges(c: Config, run: seq<Stimulus>, s: Stimulus)
    ensures var p := Reached(c, run);
      var before, after := p.ctl.nmiMode, Advance(c, p, s).ctl.nmiMode;
      && (!before && after <==> EntersNmi(c, p.ctl, Feed(c, p, s)))
      && (before && !after <==> before && p.ctl.phase.Flush? && !Trapping(p.ctl) && p.id.op.MretOp?)
      && (before ==> !p.ctl.phase.IrqTaken?)
      && (before && !after ==> p.finished)
  {
    hide Reached, Feed, StepNow, DebugPriority, ExcRequest, IllegalNow, NextDebugCause, Delivers, Records;
    hide Admits, Stays, Accepts, NextSlot, Completes, Executing, Responds, Accesses, Raises, Special, SpecialRequest;
    hide Controls, EntersNmi;
    var p := Reached(c, run);
    InvReached(c, run);
    Specials(c, p, s);
    EnteringNmi(c, p.ctl, Feed(c, p, s));
    LeavingNmi(c, p.ctl, Feed(c, p, s));
  }

  lemma LeavingNmi(c: Config, r: Registers, i: Inputs)
    ensures r.nmiMode ==> Controls(c, r, i).nmiModeD == !Returns(r, i)
  {
    hide Prio, TrapReport, EnterDebug, SpecialRequest, DebugFirst, EbreakDebugs;
    hide WakesUp, Dret, Wfi, HandleIrq, EntersNmi;
    hide Stall, WbException, IdWbPending, EbreakIntoDebug, SavesDebugFromId, IrqCause, Delivers, NmiPending;
  }

  // ---------------------------------------------------------------------------------------------
  // Mispredicted branches

  /** The branch in ID was predicted taken and is not. */
  predicate Mispredicts(c: Config, p: Pipe, s: Stimulus) {
    Signals(c, p, s).mispredict
  }

  /**
   * A mispredicted branch is cleared from ID in the same cycle exactly when nothing stalls it:
   * no older memory access is unanswered, none failed, and the branch itself takes no second cycle
   * and names no register that RV32E lacks.
   */
  lemma MispredictClears(c: Config, run: seq<Stimulus>, s: Stimulus)
    requires Mispredicts(c, Reached(c, run), s)
    ensures var p := Reached(c, run);
      ValidClear(Feed(c, p, s), Signals(c, p, s)) <==>
        ReadyWb(p, s) && !LoadFails(p, s) && !StoreFails(p, s) && !s.busy && !p.id.highReg
  {
    hide Reached, Feed, Controls;
    var p := Reached(c, run);
    InvReached(c, run);
    MispredictNeeds(c, p, s);
    Wires(c, p, s);
    DecodeMoves(c, p, s);
  }

  lemma RowsPredict(c: Config, r: Registers, i: Inputs)
    requires !r.phase.Decode?
    ensures !Controls(c, r, i).mispredict
  {
    hide DecodeRow, HandleIrq, EnterDebug, Stall, TrapReport, EbreakDebugs, DebugFirst, IrqCause, EntersNmi, Delivers;
    hide WakesUp, Trapping, Mret, Dret, Wfi, SavesDebugFromId, EbreakIntoDebug, NmiPending;
  }

  lemma MispredictNeeds(c: Config, p: Pipe, s: Stimulus)
    requires Mispredicts(c, p, s)
    ensures p.ctl.phase.Decode? && NotTaken(p, s)
  {
    hide AsleepRow, FirstFetchRow, IrqRow, DebugRow, TrapRow, SpecialRow, Trapping;
    hide HandleIrq, EnterDebug, SpecialRequest, WbException, Stall, IdWbPending;
    hide StallsId, Done, ReadyWb, NotTaken, Illegal, LoadFails, StoreFails, Completes;
    if !p.ctl.phase.Decode? {
      RowsPredict(c, p.ctl, Feed(c, p, s));
    }
  }

  const QUIET := Stimulus(
    ifValid := false, ifInstr := NO_INSTR, hazard := false, busy := false, csrIllegal := false, csrFlush := false,
    wfiTraps := false, lsuDone := false, capture := false, response := false, busErr := false, intgErr := false,
    lsuAddr := 0, branchSet := false, branchNotSet := false, jumpSet := false, mie := false, irqPending := false,
    irqs := Irqs(false, false, seq(15, k => false)), nmiExt := false, debugReq := false, singleStep := false,
    ebreakM := false, ebreakU := false, trigger := false, priv := MachineLevel, instrExec := true)

  const FULL := Config(true, true, false, false)
  const LOAD := NO_INSTR.(op := LoadOp)
  const BRANCH := NO_INSTR.(bpTaken := true)

  /** A load goes to memory, then a branch predicted taken enters ID. */
  const LOAD_THEN_BRANCH := [
    QUIET, QUIET, QUIET.(ifValid := true, ifInstr := LOAD), QUIET.(ifValid := true, ifInstr := BRANCH, lsuDone := true)]

  lemma Boots(c: Config)
    ensures Advance(c, POWER_ON, QUIET) == POWER_ON.(ctl := RESET_STATE.(phase := BootSet))
    ensures Advance(c, POWER_ON.(ctl := RESET_STATE.(phase := BootSet)), QUIET)
            == POWER_ON.(ctl := RESET_STATE.(phase := FirstFetch))
  {
  }

  lemma FetchesLoad()
    ensures Advance(FULL, POWER_ON.(ctl := RESET_STATE.(phase := FirstFetch)), QUIET.(ifValid := true, ifInstr := LOAD))
            == Pipe(RESET_STATE.(phase := Decode), true, LOAD, Vacant, false, NO_REQUEST, false)
  {
  }

  lemma IssuesLoad()
    ensures Advance(FULL, Pipe(RESET_STATE.(phase := Decode), true, LOAD, Vacant, false, NO_REQUEST, false),
                    QUIET.(ifValid := true, ifInstr := BRANCH, lsuDone := true))
            == Pipe(RESET_STATE.(phase := Decode), true, BRANCH, LoadWait, false, NO_REQUEST, false)
  {
  }

  lemma FourCycles(c: Config, p: Pipe, a: Stimulus, b: Stimulus, d: Stimulus, e: Stimulus)
    ensures After(c, p, [a, b, d, e]) == Advance(c, Advance(c, Advance(c, Advance(c, p, a), b), d), e)
  {
    hide Advance;
    var p1 := Advance(c, p, a);
    var p2 := Advance(c, p1, b);
    var p3 := Advance(c, p2, d);
    assert [a, b, d, e][1..] == [b, d, e] && [b, d, e][1..] == [d, e] && [d, e][1..] == [e] && [e][1..] == [];
    assert After(c, p2, [d, e]) == After(c, p3, [e]) == Advance(c, p3, e);
    assert After(c, p1, [b, d, e]) == After(c, p2, [d, e]);
  }

  lemma BranchWaits()
    ensures Reached(FULL, LOAD_THEN_BRANCH)
            == Pipe(RESET_STATE.(phase := Decode), true, BRANCH, LoadWait, false, NO_REQUEST, false)
  {
    hide Advance, After;
    FourCycles(
      FULL, POWER_ON, QUIET, QUIET, QUIET.(ifValid := true, ifInstr := LOAD),
      QUIET.(ifValid := true, ifInstr := BRANCH, lsuDone := true));
    Boots(FULL);
    FetchesLoad();
    IssuesLoad();
  }

  /** With the load unanswered the branch mispredicts and yet stays valid in ID. */
  lemma MispredictWithoutClear()
    ensures var p, s := Reached(FULL, LOAD_THEN_BRANCH), QUIET.(branchNotSet := true);
      Mispredicts(FULL, p, s) && !ValidClear(Feed(FULL, p, s), Signals(FULL, p, s))
  {
    hide Reached, AsleepRow, FirstFetchRow, IrqRow, DebugRow, TrapRow, SpecialRow, EnterDebug, HandleIrq;
    BranchWaits();
  }

  // ---------------------------------------------------------------------------------------------
  // Rejected memory accesses

  /** The ID stage hands a request of an illegal instruction to the load-store unit. */
  predicate Leaks(c: Config, p: Pipe, s: Stimulus) {
    Issues(c, p, s) && Illegal(p, s)
  }

  /** Exactly the first cycle of a load or store that only the RV32E register check rejects, without writeback stage. */
  lemma LeaksExactly(c: Config, p: Pipe, s: Stimulus)
    ensures Leaks(c, p, s) <==>
            && !c.writebackStage && p.idValid && p.ctl.phase.Decode? && !p.multi && !p.id.fetchErr
            && (p.id.op.LoadOp? || p.id.op.StoreOp?) && !p.id.illegal && p.id.highReg
  {
    hide Feed, LoadHazard, MemoryFault, ReadyWb;
  }

  const HIGH_LOAD := NO_INSTR.(op := LoadOp, highReg := true)
  const HIGH_LOAD_COMES := QUIET.(ifValid := true, ifInstr := HIGH_LOAD)

  /** A load from a register that RV32E lacks enters ID; then it is rejected, and memory accepts its request. */
  const FETCHED_LOAD := [QUIET, QUIET, HIGH_LOAD_COMES]
  const REJECTED_LOAD := [QUIET, QUIET, HIGH_LOAD_COMES, QUIET.(lsuDone := true)]

  const WITH_LOAD := Pipe(RESET_STATE.(phase := Decode), true, HIGH_LOAD, Vacant, false, NO_REQUEST, false)
  const TRAPPED := RESET_STATE.(phase := Flush, excReq := true, illegalInsn := true)
  const WITH_ORPHAN := Pipe(TRAPPED, true, HIGH_LOAD, Vacant, true, Lsu(false, 1, false), false)

  lemma FetchesHighLoad(c: Config)
    requires c.rv32e
    ensures Advance(c, POWER_ON.(ctl := RESET_STATE.(phase := FirstFetch)), HIGH_LOAD_COMES) == WITH_LOAD
  {
  }

  lemma RejectsHighLoad(c: Config)
    requires !Contains(c)
    ensures Advance(c, WITH_LOAD, QUIET.(lsuDone := true)) == WITH_ORPHAN
  {
  }

  lemma ThreeCycles(c: Config, p: Pipe, a: Stimulus, b: Stimulus, d: Stimulus)
    ensures After(c, p, [a, b, d]) == Advance(c, Advance(c, Advance(c, p, a), b), d)
  {
    hide Advance;
    var p1 := Advance(c, p, a);
    var p2 := Advance(c, p1, b);
    assert [a, b, d][1..] == [b, d] && [b, d][1..] == [d] && [d][1..] == [];
    assert After(c, p1, [b, d]) == After(c, p2, [d]);
  }

  lemma LoadFetched(c: Config)
    requires c.rv32e
    ensures Reached(c, FETCHED_LOAD) == WITH_LOAD
  {
    hide Advance, After;
    ThreeCycles(c, POWER_ON, QUIET, QUIET, HIGH_LOAD_COMES);
    Boots(c);
    FetchesHighLoad(c);
  }

  lemma LoadRejected(c: Config)
    requires !Contains(c)
    ensures Reached(c, REJECTED_LOAD) == WITH_ORPHAN
  {
    hide Advance, After;
    FourCycles(c, POWER_ON, QUIET, QUIET, HIGH_LOAD_COMES, QUIET.(lsuDone := true));
    Boots(c);
    FetchesHighLoad(c);
    RejectsHighLoad(c);
  }

  /** In some cycle of some run an illegal instruction reaches the load-store unit. */
  predicate LeaksAfter(c: Config, run: seq<Stimulus>, s: Stimulus) {
    Leaks(c, Reached(c, run), s)
  }

  /** No illegal instruction ever reaches the load-store unit, exactly with the writeback stage or without RV32E. */
  lemma NothingLeaks(c: Config)
    ensures (forall run, s :: !LeaksAfter(c, run, s)) <==> Contains(c)
  {
    hide Reached, Leaks;
    if Contains(c) {
      forall run, s
        ensures !LeaksAfter(c, run, s)
      {
        InvReached(c, run);
        LeaksExactly(c, Reached(c, run), s);
      }
    } else {
      LoadFetched(c);
      LeaksExactly(c, WITH_LOAD, QUIET);
      assert LeaksAfter(c, FETCHED_LOAD, QUIET);
    }
  }

  /** A memory fault in cycle s of this run is reported in the cycle after. */
  predicate ReportedAfter(c: Config, run: seq<Stimulus>, s: Stimulus, after: Stimulus) {
    var p := Reached(c, run);
    LoadFails(p, s) || StoreFails(p, s) ==>
      Signals(c, Advance(c, p, s), after).report ==
      Report(if LoadFails(p, s) then CAUSE_LOAD_ACCESS_FAULT else CAUSE_STORE_ACCESS_FAULT, after.lsuAddr)
  }

  const FAILS := QUIET.(response := true, busErr := true)
  const FORGOTTEN :=
    Pipe(RESET_STATE.(phase := Decode, loadErr := true), false, HIGH_LOAD, Vacant, true, NO_REQUEST, false)

  lemma LateFault(c: Config)
    requires !Contains(c)
    ensures LoadFails(WITH_ORPHAN, FAILS)
    ensures Advance(c, WITH_ORPHAN, FAILS) == FORGOTTEN
  {
    hide DecodeRow, FirstFetchRow, IrqRow, DebugRow, AsleepRow, SpecialRow;
  }

  lemma DecodeIgnores(c: Config)
    requires !Contains(c)
    ensures Signals(c, FORGOTTEN, QUIET).report == NO_REPORT
    ensures Advance(c, FORGOTTEN, QUIET).ctl == RESET_STATE.(phase := Decode)
  {
    hide TrapRow, FirstFetchRow, IrqRow, DebugRow, AsleepRow, SpecialRow;
  }

  /**
   * The orphaned request fails while FLUSH takes the load's own exception: the fault is recorded,
   * DECODE does not look at it, and a cycle later it is gone.
   */
  lemma FaultForgotten(c: Config)
    requires !Contains(c)
    ensures LoadFails(Reached(c, REJECTED_LOAD), FAILS) && !ReportedAfter(c, REJECTED_LOAD, FAILS, QUIET)
    ensures Reached(c, REJECTED_LOAD + [FAILS, QUIET]).ctl == RESET_STATE.(phase := Decode)
  {
    hide Advance, Signals, After, LoadFails;
    LoadRejected(c);
    LateFault(c);
    DecodeIgnores(c);
    TwoMore(c, POWER_ON, REJECTED_LOAD, FAILS, QUIET);
  }

  lemma {:induction false} TwoMore(c: Config, p: Pipe, run: seq<Stimulus>, a: Stimulus, b: Stimulus)
    ensures After(c, p, run + [a, b]) == Advance(c, Advance(c, After(c, p, run), a), b)
    decreases |run|
  {
    hide Advance;
    if run == [] {
      assert run + [a, b] == [a, b] && [a, b][1..] == [b] && [b][1..] == [];
      assert After(c, Advance(c, p, a), [b]) == Advance(c, Advance(c, p, a), b);
    } else {
      assert (run + [a, b])[1..] == run[1..] + [a, b];
      TwoMore(c, Advance(c, p, run[0]), run[1..], a, b);
    }
  }

  /** Every memory fault of every run is reported the cycle after, exactly where nothing leaks. */
  lemma NoFaultIsLost(c: Config)
    ensures (forall run, s, after :: ReportedAfter(c, run, s, after)) <==> Contains(c)
  {
    hide Reached, Signals, Advance, LoadFails, StoreFails;
    if Contains(c) {
      forall run, s, after
        ensures ReportedAfter(c, run, s, after)
      {
        if LoadFails(Reached(c, run), s) || StoreFails(Reached(c, run), s) {
          MemoryFaultIsReported(c, run, s, after);
        }
      }
    } else {
      FaultForgotten(c);
    }
  }
}
