/**
 * The pipeline controller: a ten-state machine with mode, single-step and flopped exception bits.
 * Every signal is given as one equation over the registers and the cycle's inputs; the class runs
 * the controller's combinational block, with its defaults and overrides, against those equations.
 */
module Controller {
  type Address = bv32

  datatype Config = Config(writebackStage: bool, branchPredictor: bool, memECC: bool, rv32e: bool)

  datatype Phase =
    | Reset | BootSet | WaitSleep | Sleep | FirstFetch | Decode | Flush | IrqTaken | DbgTakenIf | DbgTakenId

  datatype Privilege = MachineLevel | HypervisorLevel | SupervisorLevel | UserLevel

  datatype PcMux = PcBoot | PcJump | PcExc | PcEret | PcDret

  datatype ExcPcMux = ExcPcExc | ExcPcIrq | ExcPcDbd | ExcPcDbgExc

  datatype DebugCause = NoCause | EbreakCause | TriggerCause | HaltCause | StepCause

  datatype Cause = Cause(irqExt: bool, irqInt: bool, lower: nat)

  const CAUSE_INSN_ADDR_MISALIGNED := Cause(false, false, 0)
  const CAUSE_INSTR_ACCESS_FAULT := Cause(false, false, 1)
  const CAUSE_ILLEGAL_INSN := Cause(false, false, 2)
  const CAUSE_BREAKPOINT := Cause(false, false, 3)
  const CAUSE_LOAD_ACCESS_FAULT := Cause(false, false, 5)
  const CAUSE_STORE_ACCESS_FAULT := Cause(false, false, 7)
  const CAUSE_ECALL_U := Cause(false, false, 8)
  const CAUSE_ECALL_M := Cause(false, false, 11)
  const CAUSE_IRQ_SOFTWARE := Cause(true, false, 3)
  const CAUSE_IRQ_TIMER := Cause(true, false, 7)
  const CAUSE_IRQ_EXTERNAL := Cause(true, false, 11)
  const CAUSE_IRQ_NM := Cause(true, false, 31)
  const CAUSE_INTERNAL_ECC := Cause(false, true, 0)

  /** Fifteen fast interrupt lines. */
  type FastLines = s: seq<bool> | |s| == 15 witness seq(15, i => false)

  datatype Irqs = Irqs(software: bool, external: bool, fast: FastLines)

  /** What the controller sees in one clock cycle. */
  datatype Inputs = Inputs(
    instrValid: bool, illegalInsn: bool, ecallInsn: bool, mretInsn: bool, dretInsn: bool, wfiInsn: bool,
    ebrkInsn: bool, csrPipeFlush: bool, fetchErr: bool, fetchErrPlus2: bool, bpTaken: bool,
    pc: Address, mtvalInstr: Address,
    lsuAddr: Address, loadErr: bool, storeErr: bool, intgErr: bool,
    branchSet: bool, branchNotSet: bool, jumpSet: bool,
    mie: bool, irqPending: bool, irqs: Irqs, nmiExt: bool,
    debugReq: bool, singleStep: bool, ebreakM: bool, ebreakU: bool, trigger: bool,
    priv: Privilege, instrExec: bool, stallId: bool, stallWb: bool, readyWb: bool)

  datatype Registers = Registers(
    phase: Phase, nmiMode: bool, debugMode: bool, stepping: bool, debugPrio: bool,
    loadErr: bool, storeErr: bool, excReq: bool, illegalInsn: bool, debugCause: DebugCause,
    intgPending: bool, intgAddr: Address)

  const RESET_STATE := Registers(Reset, false, false, false, false, false, false, false, false, NoCause, false, 0)

  /** Where execution is sent when jump is high. */
  datatype Redirect = Redirect(jump: bool, mux: PcMux, handler: ExcPcMux)

  /** mcause and mtval, and which stage's PC is saved. */
  datatype Report = Report(cause: Cause, mtval: Address)

  datatype Saves = Saves(fromIf: bool, fromId: bool, fromWb: bool, cause: bool, debug: bool)

  /** The signals the combinational block drives, with the next state and modes. */
  datatype Control = Control(
    next: Phase, debugModeD: bool, nmiModeD: bool, haltIf: bool, retainId: bool, flushId: bool,
    redirect: Redirect, report: Report, saves: Saves, wake: Wake, restoreMret: bool, restoreDret: bool,
    mispredict: bool, pulses: Pulses)

  /** controller_run, debug_mode_entering and the two performance pulses. */
  datatype Pulses = Pulses(run: bool, entering: bool, takenBranch: bool, jump: bool)

  datatype Wake = Wake(busy: bool, instrReq: bool)

  datatype Outputs = Outputs(ctl: Control, idInReady: bool, validClear: bool, wbException: bool, idException: bool)

  // ---------------------------------------------------------------------------------------------
  // Exceptions

  predicate Ecall(i: Inputs) { i.instrValid && i.ecallInsn }
  predicate Mret(i: Inputs) { i.instrValid && i.mretInsn }
  predicate Dret(i: Inputs) { i.instrValid && i.dretInsn }
  predicate Wfi(i: Inputs) { i.instrValid && i.wfiInsn }
  predicate Ebreak(i: Inputs) { i.instrValid && i.ebrkInsn }
  predicate CsrFlush(i: Inputs) { i.instrValid && i.csrPipeFlush }
  predicate FetchErr(i: Inputs) { i.instrValid && i.fetchErr }

  predicate IllegalNow(r: Registers, i: Inputs) {
    i.illegalInsn && !r.phase.Flush?
  }

  predicate ExcRequest(r: Registers, i: Inputs) {
    !r.phase.Flush? && (Ecall(i) || Ebreak(i) || IllegalNow(r, i) || FetchErr(i))
  }

  predicate WbException(c: Config, r: Registers, i: Inputs) {
    c.writebackStage && (r.loadErr || r.storeErr || i.loadErr || i.storeErr)
  }

  predicate IdException(c: Config, r: Registers, i: Inputs) {
    ExcRequest(r, i) && !WbException(c, r, i)
  }

  predicate SpecialRequest(r: Registers, i: Inputs) {
    Wfi(i) || CsrFlush(i) || Mret(i) || Dret(i) || ExcRequest(r, i) || i.loadErr || i.storeErr
  }

  /** The six exception sources, oldest instruction first when there is a writeback stage. */
  datatype Source = FetchFault | IllegalInstruction | EnvironmentCall | Breakpoint | StoreFault | LoadFault

  predicate Raised(s: Source, r: Registers, i: Inputs) {
    match s
    case FetchFault => FetchErr(i)
    case IllegalInstruction => r.illegalInsn
    case EnvironmentCall => Ecall(i)
    case Breakpoint => Ebreak(i)
    case StoreFault => r.storeErr
    case LoadFault => r.loadErr
  }

  /** Lower is more urgent: memory faults come first with a writeback stage and last without. */
  function Rank(c: Config, s: Source): nat {
    match s
    case StoreFault => if c.writebackStage then 0 else 6
    case LoadFault => if c.writebackStage then 1 else 7
    case FetchFault => 2
    case IllegalInstruction => 3
    case EnvironmentCall => 4
    case Breakpoint => 5
  }

  predicate NotBeatenBy(c: Config, s: Source, t: Source, r: Registers, i: Inputs) {
    Raised(t, r, i) ==> Rank(c, s) <= Rank(c, t)
  }

  /** The source's priority signal: raised, and no raised source is more urgent. */
  predicate Prio(c: Config, s: Source, r: Registers, i: Inputs) {
    && Raised(s, r, i)
    && NotBeatenBy(c, s, FetchFault, r, i) && NotBeatenBy(c, s, IllegalInstruction, r, i)
    && NotBeatenBy(c, s, EnvironmentCall, r, i) && NotBeatenBy(c, s, Breakpoint, r, i)
    && NotBeatenBy(c, s, StoreFault, r, i) && NotBeatenBy(c, s, LoadFault, r, i)
  }

  /** FLUSH takes the exception branch. */
  predicate Trapping(r: Registers) {
    r.excReq || r.storeErr || r.loadErr
  }

  /** An MRET that FLUSH acts on. */
  predicate Returns(r: Registers, i: Inputs) {
    r.phase.Flush? && !Trapping(r) && Mret(i)
  }

  /** A DRET that FLUSH acts on. */
  predicate LeavesDebug(r: Registers, i: Inputs) {
    r.phase.Flush? && !Trapping(r) && !Mret(i) && Dret(i)
  }

  // ---------------------------------------------------------------------------------------------
  // Interrupts and debug

  predicate NmiPending(c: Config, r: Registers, i: Inputs) {
    i.nmiExt || (c.memECC && r.intgPending)
  }

  predicate HandleIrq(c: Config, r: Registers, i: Inputs) {
    !r.debugMode && !i.singleStep && !r.nmiMode
    && (NmiPending(c, r, i) || (i.irqPending && (i.mie || i.priv.UserLevel?)))
  }

  predicate StepNow(r: Registers, i: Inputs) {
    if i.instrValid then !r.debugMode && i.singleStep else r.stepping
  }

  predicate DebugPriority(r: Registers, i: Inputs) {
    (i.debugReq || StepNow(r, i)) && !r.debugMode
  }

  predicate EnterDebug(r: Registers, i: Inputs) {
    DebugPriority(r, i) || (i.trigger && !r.debugMode)
  }

  predicate EbreakIntoDebug(i: Inputs) {
    (i.priv.MachineLevel? && i.ebreakM) || (i.priv.UserLevel? && i.ebreakU)
  }

  /** An EBREAK in FLUSH that re-enters or enters debug mode instead of trapping. */
  predicate EbreakDebugs(c: Config, r: Registers, i: Inputs) {
    Trapping(r) && Prio(c, Breakpoint, r, i) && (r.debugMode || EbreakIntoDebug(i))
  }

  predicate EntersNmi(c: Config, r: Registers, i: Inputs) {
    r.phase.IrqTaken? && HandleIrq(c, r, i) && NmiPending(c, r, i)
  }

  /** The recorded integrity error is handed over in this cycle. */
  predicate Delivers(c: Config, r: Registers, i: Inputs) {
    c.memECC && r.intgPending && EntersNmi(c, r, i) && !i.nmiExt
  }

  /** A new integrity error is recorded in this cycle. */
  predicate Records(c: Config, r: Registers, i: Inputs) {
    c.memECC && !r.intgPending && i.intgErr
  }

  // ---------------------------------------------------------------------------------------------
  // Stall control

  predicate Stall(i: Inputs) {
    i.stallId || i.stallWb
  }

  predicate IdWbPending(i: Inputs) {
    i.instrValid || !i.readyWb
  }

  // ---------------------------------------------------------------------------------------------
  // Reported cause

  /** Lowest-numbered fast interrupt that is raised, and 0 when none is. */
  function FastId(fast: FastLines): (id: nat)
    ensures id < 15
    ensures true in fast ==> fast[id] && forall j :: 0 <= j < id ==> !fast[j]
  {
    if true in fast then LowestFrom(fast, 0) else 0
  }

  function LowestFrom(fast: FastLines, from: nat): (id: nat)
    requires from <= 15 && true in fast[from..]
    requires forall j :: 0 <= j < from ==> !fast[j]
    ensures id < 15 && fast[id] && forall j :: 0 <= j < id ==> !fast[j]
    decreases 15 - from
  {
    if fast[from] then from else
      assert fast[from..] == [fast[from]] + fast[from + 1..];
      LowestFrom(fast, from + 1)
  }

  function IrqCause(c: Config, r: Registers, i: Inputs): Cause {
    if NmiPending(c, r, i) then (if i.nmiExt then CAUSE_IRQ_NM else CAUSE_INTERNAL_ECC)
    else if true in i.irqs.fast then Cause(true, false, 16 + FastId(i.irqs.fast))
    else if i.irqs.external then CAUSE_IRQ_EXTERNAL
    else if i.irqs.software then CAUSE_IRQ_SOFTWARE
    else CAUSE_IRQ_TIMER
  }

  function SourceCause(s: Source, i: Inputs): Cause {
    match s
    case FetchFault => CAUSE_INSTR_ACCESS_FAULT
    case IllegalInstruction => CAUSE_ILLEGAL_INSN
    case EnvironmentCall => if i.priv.MachineLevel? then CAUSE_ECALL_M else CAUSE_ECALL_U
    case Breakpoint => CAUSE_BREAKPOINT
    case StoreFault => CAUSE_STORE_ACCESS_FAULT
    case LoadFault => CAUSE_LOAD_ACCESS_FAULT
  }

  function SourceValue(s: Source, i: Inputs): Address {
    match s
    case FetchFault => if i.fetchErrPlus2 then i.pc + 2 else i.pc
    case IllegalInstruction => i.mtvalInstr
    case EnvironmentCall | Breakpoint => 0
    case StoreFault | LoadFault => i.lsuAddr
  }

  predicate AnyRaised(r: Registers, i: Inputs) {
    FetchErr(i) || r.illegalInsn || Ecall(i) || Ebreak(i) || r.storeErr || r.loadErr
  }

  /** The source FLUSH acts on, the highest-ranked one that is raised. */
  function Winner(c: Config, r: Registers, i: Inputs): (s: Source)
    requires AnyRaised(r, i)
    ensures Prio(c, s, r, i)
  {
    hide Ecall, Ebreak, FetchErr;
    var anyLocal := FetchErr(i) || r.illegalInsn || Ecall(i) || Ebreak(i);
    var anyMemory := r.storeErr || r.loadErr;
    var s :=
      if anyMemory && (c.writebackStage || !anyLocal) then (if r.storeErr then StoreFault else LoadFault)
      else if FetchErr(i) then FetchFault else if r.illegalInsn then IllegalInstruction
      else if Ecall(i) then EnvironmentCall else Breakpoint;
    s
  }

  /** A debug request or single step outlasts FLUSH, unless an EBREAK enters debug mode itself. */
  predicate DebugFirst(c: Config, r: Registers, i: Inputs) {
    r.debugPrio && !(Prio(c, Breakpoint, r, i) && EbreakIntoDebug(i))
  }

  /** EBREAK taken from outside debug mode saves dpc and dcsr. */
  predicate SavesDebugFromId(r: Registers, i: Inputs) {
    r.phase.DbgTakenId? && EbreakIntoDebug(i) && !r.debugMode
  }

  // ---------------------------------------------------------------------------------------------
  // One row of signals per state

  const NO_REDIRECT := Redirect(false, PcBoot, ExcPcIrq)
  const NO_REPORT := Report(CAUSE_INSN_ADDR_MISALIGNED, 0)
  const NO_SAVES := Saves(false, false, false, false, false)
  const AWAKE := Wake(true, true)
  const NO_PULSES := Pulses(false, false, false, false)

  function Defaults(r: Registers): Control {
    Control(
      r.phase, r.debugMode, r.nmiMode, false, false, false, NO_REDIRECT, NO_REPORT, NO_SAVES, AWAKE,
      false, false, false, NO_PULSES)
  }

  /** What ends SLEEP. */
  predicate WakesUp(c: Config, r: Registers, i: Inputs) {
    NmiPending(c, r, i) || i.irqPending || i.debugReq || r.debugMode || i.singleStep
  }

  function AsleepRow(c: Config, r: Registers, i: Inputs): Control {
    var wakes := r.phase.Sleep? && WakesUp(c, r, i);
    Defaults(r).(
      next := if wakes then FirstFetch else Sleep, wake := Wake(wakes, false), haltIf := true, flushId := true)
  }

  function FirstFetchRow(c: Config, r: Registers, i: Inputs): Control {
    var diverts := EnterDebug(r, i) || HandleIrq(c, r, i);
    Defaults(r).(
      next :=
        if EnterDebug(r, i) then DbgTakenIf else if diverts then IrqTaken
        else if i.instrExec && !Stall(i) then Decode else FirstFetch,
      haltIf := diverts || !i.instrExec)
  }

  function DecodeRow(c: Config, r: Registers, i: Inputs): Control {
    var special, diverts := SpecialRequest(r, i), EnterDebug(r, i) || HandleIrq(c, r, i);
    var free := !special && !Stall(i) && !IdWbPending(i);
    Defaults(r).(
      next :=
        if special && (i.readyWb || WbException(c, r, i)) then Flush
        else if free && EnterDebug(r, i) then DbgTakenIf
        else if free && diverts then IrqTaken else Decode,
      redirect := Redirect((i.branchSet || i.jumpSet) && !(c.branchPredictor && i.bpTaken), PcJump, ExcPcIrq),
      mispredict := c.branchPredictor && i.bpTaken && i.branchNotSet,
      pulses := Pulses(true, false, i.branchSet, i.jumpSet),
      haltIf := !i.instrExec || (diverts && (Stall(i) || IdWbPending(i) || free)),
      retainId := special)
  }

  function IrqRow(c: Config, r: Registers, i: Inputs): Control {
    var takes := HandleIrq(c, r, i);
    Defaults(r).(
      next := Decode, redirect := Redirect(takes, PcExc, ExcPcIrq),
      report := Report(if takes then IrqCause(c, r, i) else CAUSE_INSN_ADDR_MISALIGNED,
                       if Delivers(c, r, i) then r.intgAddr else 0),
      saves := Saves(takes, false, false, takes, false),
      haltIf := !i.instrExec, nmiModeD := r.nmiMode || EntersNmi(c, r, i))
  }

  function DebugRow(r: Registers, i: Inputs): Control {
    var fromIf, fromId := r.phase.DbgTakenIf?, SavesDebugFromId(r, i);
    Defaults(r).(
      next := Decode, redirect := Redirect(true, PcExc, ExcPcDbd),
      saves := Saves(fromIf, fromId, false, fromIf || fromId, fromIf || fromId),
      haltIf := !i.instrExec, flushId := true, debugModeD := true, pulses := NO_PULSES.(entering := true))
  }

  function TrapReport(c: Config, r: Registers, i: Inputs): Report {
    if AnyRaised(r, i) && !EbreakDebugs(c, r, i)
    then Report(SourceCause(Winner(c, r, i), i), SourceValue(Winner(c, r, i), i)) else NO_REPORT
  }

  function TrapRow(c: Config, r: Registers, i: Inputs): Control {
    var debugs, memory := EbreakDebugs(c, r, i), r.storeErr || r.loadErr;
    Defaults(r).(
      next := if DebugFirst(c, r, i) then DbgTakenIf else if debugs then DbgTakenId else Decode,
      redirect := Redirect(!debugs, PcExc, if r.debugMode then ExcPcDbgExc else ExcPcExc),
      report := TrapReport(c, r, i),
      saves := Saves(false, c.writebackStage && !memory && !debugs, c.writebackStage && memory, !debugs, false),
      haltIf := true, flushId := !debugs)
  }

  /** FLUSH without an exception: MRET before DRET before WFI. */
  function SpecialRow(c: Config, r: Registers, i: Inputs): Control {
    var mret, dret := Mret(i), !Mret(i) && Dret(i);
    Defaults(r).(
      next := if DebugFirst(c, r, i) then DbgTakenIf else if !mret && !dret && Wfi(i) then WaitSleep else Decode,
      redirect := Redirect(mret || dret, if mret then PcEret else if dret then PcDret else PcBoot, ExcPcIrq),
      restoreMret := mret, restoreDret := dret, haltIf := true, flushId := true,
      debugModeD := r.debugMode && !dret, nmiModeD := r.nmiMode && !mret)
  }

  function Controls(c: Config, r: Registers, i: Inputs): Control {
    match r.phase
    case Reset =>
      Defaults(r).(
        next := BootSet, wake := Wake(true, false), redirect := NO_REDIRECT.(jump := true), haltIf := !i.instrExec)
    case BootSet => Defaults(r).(next := FirstFetch, redirect := NO_REDIRECT.(jump := true), haltIf := !i.instrExec)
    case WaitSleep | Sleep => AsleepRow(c, r, i)
    case FirstFetch => FirstFetchRow(c, r, i)
    case Decode => DecodeRow(c, r, i)
    case IrqTaken => IrqRow(c, r, i)
    case DbgTakenIf | DbgTakenId => DebugRow(r, i)
    case Flush => if Trapping(r) then TrapRow(c, r, i) else SpecialRow(c, r, i)
  }

  function NextDebugCause(c: Config, r: Registers, i: Inputs): DebugCause {
    if i.trigger then TriggerCause
    else if Prio(c, Breakpoint, r, i) && EbreakIntoDebug(i) then EbreakCause
    else if i.debugReq then HaltCause
    else if StepNow(r, i) then StepCause
    else NoCause
  }

  function Next(c: Config, r: Registers, i: Inputs): Registers {
    var k := Controls(c, r, i);
    Registers(
      k.next, k.nmiModeD, k.debugModeD, StepNow(r, i), DebugPriority(r, i),
      i.loadErr, i.storeErr, ExcRequest(r, i), IllegalNow(r, i), NextDebugCause(c, r, i),
      (r.intgPending && !Delivers(c, r, i)) || Records(c, r, i),
      if Records(c, r, i) then i.lsuAddr else r.intgAddr)
  }

  predicate IdInReady(i: Inputs, k: Control) {
    !Stall(i) && !k.haltIf && !k.retainId
  }

  predicate ValidClear(i: Inputs, k: Control) {
    k.flushId || !(Stall(i) || k.retainId)
  }

  function Drive(c: Config, r: Registers, i: Inputs): Outputs {
    var k := Controls(c, r, i);
    Outputs(k, IdInReady(i, k), ValidClear(i, k), WbException(c, r, i), IdException(c, r, i))
  }

  // ---------------------------------------------------------------------------------------------
  // The controller as it runs

  /** The priority chain, in the order the configuration asks for. */
  method Prioritise(c: Config, r: Registers, i: Inputs)
    returns (fetch: bool, illegal: bool, ecall: bool, ebrk: bool, store: bool, load: bool)
    ensures fetch == Prio(c, FetchFault, r, i) && illegal == Prio(c, IllegalInstruction, r, i)
    ensures ecall == Prio(c, EnvironmentCall, r, i) && ebrk == Prio(c, Breakpoint, r, i)
    ensures store == Prio(c, StoreFault, r, i) && load == Prio(c, LoadFault, r, i)
    ensures (fetch || illegal || ecall || ebrk || store || load) == AnyRaised(r, i)
  {
    hide Ecall, Ebreak, FetchErr;
    fetch, illegal, ecall, ebrk, store, load := false, false, false, false, false, false;
    if c.writebackStage {
      if r.storeErr {
        store := true;
      } else if r.loadErr {
        load := true;
      } else if FetchErr(i) {
        fetch := true;
      } else if r.illegalInsn {
        illegal := true;
      } else if Ecall(i) {
        ecall := true;
      } else if Ebreak(i) {
        ebrk := true;
      }
    } else {
      if FetchErr(i) {
        fetch := true;
      } else if r.illegalInsn {
        illegal := true;
      } else if Ecall(i) {
        ecall := true;
      } else if Ebreak(i) {
        ebrk := true;
      } else if r.storeErr {
        store := true;
      } else if r.loadErr {
        load := true;
      }
    }
  }

  /** Scans downwards so that the lowest raised line is written last. */
  method EncodeFast(fast: FastLines) returns (id: nat)
    ensures id == FastId(fast)
  {
    id := 0;
    for k := 15 downto 0
      invariant true in fast[k..] ==> k <= id < 15 && fast[id] && forall j :: k <= j < id ==> !fast[j]
      invariant true !in fast[k..] ==> id == 0
    {
      assert fast[k..] == [fast[k]] + fast[k + 1..];
      if fast[k] {
        id := k;
      }
    }
    assert fast[0..] == fast;
  }

  /** At most one source wins, whatever the registers hold. */
  lemma OneWinner(c: Config, r: Registers, i: Inputs, s: Source)
    requires Prio(c, s, r, i)
    ensures Prio(c, FetchFault, r, i) == s.FetchFault? && Prio(c, IllegalInstruction, r, i) == s.IllegalInstruction?
    ensures Prio(c, EnvironmentCall, r, i) == s.EnvironmentCall? && Prio(c, Breakpoint, r, i) == s.Breakpoint?
    ensures Prio(c, StoreFault, r, i) == s.StoreFault? && Prio(c, LoadFault, r, i) == s.LoadFault?
  {
    hide Ecall, Ebreak, FetchErr;
  }

  method Doze(c: Config, r: Registers, i: Inputs) returns (k: Control)
    requires r.phase in {Reset, BootSet, WaitSleep, Sleep, FirstFetch}
    ensures k == Controls(c, r, i)
  {
    hide HandleIrq, EnterDebug, Stall, NmiPending;
    var next, busy, instrReq, pcSet, haltIf, flushId := r.phase, true, true, false, false, false;
    match r.phase {
      case Reset =>
        instrReq, pcSet, next := false, true, BootSet;
      case BootSet =>
        pcSet, next := true, FirstFetch;
      case WaitSleep =>
        busy, instrReq, haltIf, flushId, next := false, false, true, true, Sleep;
      case Sleep =>
        instrReq, haltIf, flushId := false, true, true;
        if NmiPending(c, r, i) || i.irqPending || i.debugReq || r.debugMode || i.singleStep {
          next := FirstFetch;
        } else {
          busy := false;
        }
      case FirstFetch =>
        // id_in_ready_o already takes the halt_if of this very cycle into account
        haltIf := HandleIrq(c, r, i) || EnterDebug(r, i);
        if i.instrExec && !haltIf && !Stall(i) {
          next := Decode;
        }
        if HandleIrq(c, r, i) {
          next := IrqTaken;
        }
        if EnterDebug(r, i) {
          next := DbgTakenIf;
        }
    }
    if !i.instrExec {
      haltIf := true;
    }
    k := Defaults(r).(
      next := next, wake := Wake(busy, instrReq), redirect := NO_REDIRECT.(jump := pcSet), haltIf := haltIf,
      flushId := flushId);
  }

  method Run(c: Config, r: Registers, i: Inputs) returns (k: Control)
    requires r.phase.Decode?
    ensures k == DecodeRow(c, r, i)
  {
    hide HandleIrq, EnterDebug, SpecialRequest, WbException, Stall, IdWbPending;
    var special, enterDebug, handleIrq := SpecialRequest(r, i), EnterDebug(r, i), HandleIrq(c, r, i);
    var next, retainId, haltIf, pcSet, mispredict := Decode, false, false, false, false;
    var pulses := NO_PULSES.(run := true);
    if special {
      retainId := true;
      if i.readyWb || WbException(c, r, i) {
        next := Flush;
      }
    }
    if i.branchSet || i.jumpSet {
      pcSet := if c.branchPredictor then !i.bpTaken else true;
      pulses := pulses.(takenBranch := i.branchSet, jump := i.jumpSet);
    }
    if c.branchPredictor {
      if i.bpTaken && i.branchNotSet {
        mispredict := true;
      }
    }
    if (enterDebug || handleIrq) && (Stall(i) || IdWbPending(i)) {
      haltIf := true;
    }
    if !Stall(i) && !special && !IdWbPending(i) {
      if enterDebug {
        next, haltIf := DbgTakenIf, true;
      } else if handleIrq {
        next, haltIf := IrqTaken, true;
      }
    }
    if !i.instrExec {
      haltIf := true;
    }
    k := Defaults(r).(
      next := next, redirect := Redirect(pcSet, PcJump, ExcPcIrq), mispredict := mispredict, haltIf := haltIf,
      retainId := retainId, pulses := pulses);
  }

  method TakeIrq(c: Config, r: Registers, i: Inputs) returns (k: Control)
    requires r.phase.IrqTaken?
    ensures k == IrqRow(c, r, i)
  {
    var irqNmInt := c.memECC && r.intgPending;
    var cause, mtval, nmiModeD := CAUSE_INSN_ADDR_MISALIGNED, 0, r.nmiMode;
    var taken := HandleIrq(c, r, i);
    if taken {
      if (i.nmiExt || irqNmInt) && !r.nmiMode {
        cause := if i.nmiExt then CAUSE_IRQ_NM else CAUSE_INTERNAL_ECC;
        if irqNmInt && !i.nmiExt {
          mtval := r.intgAddr;
        }
        nmiModeD := true;
      } else if true in i.irqs.fast {
        var id := EncodeFast(i.irqs.fast);
        cause := Cause(true, false, 16 + id);
      } else if i.irqs.external {
        cause := CAUSE_IRQ_EXTERNAL;
      } else if i.irqs.software {
        cause := CAUSE_IRQ_SOFTWARE;
      } else {
        cause := CAUSE_IRQ_TIMER;
      }
    }
    k := Defaults(r).(
      next := Decode, redirect := Redirect(taken, PcExc, ExcPcIrq), report := Report(cause, mtval),
      saves := Saves(taken, false, false, taken, false), haltIf := !i.instrExec, nmiModeD := nmiModeD);
  }

  method TakeDebug(r: Registers, i: Inputs) returns (k: Control)
    requires r.phase.DbgTakenIf? || r.phase.DbgTakenId?
    ensures k == DebugRow(r, i)
  {
    var saves := NO_SAVES;
    if r.phase.DbgTakenIf? {
      saves := saves.(fromIf := true, debug := true, cause := true);
    } else if EbreakIntoDebug(i) && !r.debugMode {
      saves := saves.(cause := true, fromId := true, debug := true);
    }
    k := Defaults(r).(
      next := Decode, redirect := Redirect(true, PcExc, ExcPcDbd), saves := saves, haltIf := !i.instrExec,
      flushId := true, debugModeD := true, pulses := NO_PULSES.(entering := true));
  }

  method FlushPipe(c: Config, r: Registers, i: Inputs) returns (k: Control)
    requires r.phase.Flush?
    ensures k == if Trapping(r) then TrapRow(c, r, i) else SpecialRow(c, r, i)
  {
    hide Prio, Winner, EbreakIntoDebug, Ecall, Ebreak, FetchErr, TrapReport, AnyRaised, Mret, Dret, Wfi;
    var fetch, illegal, ecall, ebrk, store, load := Prioritise(c, r, i);
    var next, flushId, nmiModeD, debugModeD, mret, dret := Decode, true, r.nmiMode, r.debugMode, false, false;
    var redirect, saves, report := NO_REDIRECT, NO_SAVES, NO_REPORT;
    if r.excReq || r.storeErr || r.loadErr {
      redirect := Redirect(true, PcExc, if r.debugMode then ExcPcDbgExc else ExcPcExc);
      saves := saves.(cause := true);
      if c.writebackStage {
        saves := saves.(fromId := !(r.storeErr || r.loadErr), fromWb := r.storeErr || r.loadErr);
      }
      report := Explain(c, r, i, fetch, illegal, ecall, ebrk, store, load);
      if ebrk && (r.debugMode || EbreakIntoDebug(i)) {
        redirect, saves := redirect.(jump := false), saves.(fromId := false, cause := false);
        next, flushId := DbgTakenId, false;
      }
    } else if Mret(i) {
      redirect, mret := Redirect(true, PcEret, ExcPcIrq), true;
      if r.nmiMode {
        nmiModeD := false;
      }
    } else if Dret(i) {
      redirect, debugModeD, dret := Redirect(true, PcDret, ExcPcIrq), false, true;
    } else if Wfi(i) {
      next := WaitSleep;
    }
    if r.debugPrio && !(ebrk && EbreakIntoDebug(i)) {
      next := DbgTakenIf;
    }
    k := Control(next, debugModeD, nmiModeD, true, false, flushId, redirect, report, saves, AWAKE, mret, dret, false,
      NO_PULSES);
  }

  /** The exception branch's case over the six priority signals. */
  method Explain(c: Config, r: Registers, i: Inputs,
                 fetch: bool, illegal: bool, ecall: bool, ebrk: bool, store: bool, load: bool) returns (report: Report)
    requires Trapping(r)
    requires fetch == Prio(c, FetchFault, r, i) && illegal == Prio(c, IllegalInstruction, r, i)
    requires ecall == Prio(c, EnvironmentCall, r, i) && ebrk == Prio(c, Breakpoint, r, i)
    requires store == Prio(c, StoreFault, r, i) && load == Prio(c, LoadFault, r, i)
    requires (fetch || illegal || ecall || ebrk || store || load) == AnyRaised(r, i)
    ensures report == TrapReport(c, r, i)
  {
    if AnyRaised(r, i) {
      OneWinner(c, r, i, Winner(c, r, i));
    }
    hide Prio, Winner, AnyRaised, EbreakIntoDebug, Trapping;
    report := NO_REPORT;
    if fetch {
      report := Report(CAUSE_INSTR_ACCESS_FAULT, if i.fetchErrPlus2 then i.pc + 2 else i.pc);
    } else if illegal {
      report := Report(CAUSE_ILLEGAL_INSN, i.mtvalInstr);
    } else if ecall {
      report := report.(cause := if i.priv.MachineLevel? then CAUSE_ECALL_M else CAUSE_ECALL_U);
    } else if ebrk {
      if !(r.debugMode || EbreakIntoDebug(i)) {
        report := report.(cause := CAUSE_BREAKPOINT);
      }
    } else if store {
      report := Report(CAUSE_STORE_ACCESS_FAULT, i.lsuAddr);
    } else if load {
      report := Report(CAUSE_LOAD_ACCESS_FAULT, i.lsuAddr);
    }
  }

  /** The combinational block: one case per state. */
  method Combine(c: Config, r: Registers, i: Inputs) returns (k: Control)
    ensures k == Controls(c, r, i)
  {
    match r.phase {
      case Decode => k := Run(c, r, i);
      case Flush => k := FlushPipe(c, r, i);
      case IrqTaken => k := TakeIrq(c, r, i);
      case DbgTakenIf | DbgTakenId => k := TakeDebug(r, i);
      case _ => k := Doze(c, r, i);
    }
    hide DecodeRow, IrqRow, DebugRow, TrapRow, SpecialRow, AsleepRow, FirstFetchRow, Trapping;
  }

  /** The memory integrity interrupt: pending flag and address of the next cycle. */
  method Latch(c: Config, r: Registers, i: Inputs, nmiModeD: bool) returns (pending: bool, addr: Address)
    requires nmiModeD == Controls(c, r, i).nmiModeD
    ensures pending == Next(c, r, i).intgPending && addr == Next(c, r, i).intgAddr
  {
    EnteringNmi(c, r, i);
    hide Controls, EntersNmi;
    pending, addr := r.intgPending, r.intgAddr;
    if c.memECC {
      var enteringNmi := nmiModeD && !r.nmiMode;
      if r.intgPending {
        if enteringNmi && !i.nmiExt {
          pending := false;
        }
      } else if i.intgErr {
        pending, addr := true, i.lsuAddr;
      }
    }
  }

  /** entering_nmi marks exactly the cycles in which an NMI is taken. */
  lemma EnteringNmi(c: Config, r: Registers, i: Inputs)
    ensures Controls(c, r, i).nmiModeD && !r.nmiMode <==> EntersNmi(c, r, i)
  {
    hide EnterDebug, SpecialRequest, Stall, IdWbPending, WbException, EbreakDebugs, TrapReport, DebugFirst, Delivers;
    hide IrqCause, WakesUp, SavesDebugFromId, Mret, Dret, Wfi, Trapping;
  }

  /** What the registers take over at the clock edge. */
  method Clock(c: Config, r: Registers, i: Inputs, k: Control) returns (n: Registers)
    requires k == Controls(c, r, i)
    ensures n == Next(c, r, i)
  {
    var fetch, illegal, ecall, ebrk, store, load := Prioritise(c, r, i);
    hide Prio, Controls, ExcRequest, StepNow, DebugPriority, Delivers, Records, IllegalNow;
    hide EbreakIntoDebug, AnyRaised, Winner;
    var pending, addr := Latch(c, r, i, k.nmiModeD);
    var recorded :=
      if i.trigger then TriggerCause
      else if ebrk && EbreakIntoDebug(i) then EbreakCause
      else if i.debugReq then HaltCause
      else if StepNow(r, i) then StepCause
      else NoCause;
    n := Registers(
      k.next, k.nmiModeD, k.debugModeD, StepNow(r, i), DebugPriority(r, i), i.loadErr, i.storeErr,
      ExcRequest(r, i), IllegalNow(r, i), recorded, pending, addr);
  }

  /** The clocked registers; Step is one clock cycle. */
  class Machine {
    const config: Config
    var phase: Phase
    var nmiMode: bool
    var debugMode: bool
    var stepping: bool
    var debugPrio: bool
    var loadErr: bool
    var storeErr: bool
    var excReq: bool
    var illegalInsn: bool
    var debugCause: DebugCause
    var intgPending: bool
    var intgAddr: Address

    function State(): Registers
      reads this
    {
      Registers(phase, nmiMode, debugMode, stepping, debugPrio, loadErr, storeErr, excReq, illegalInsn, debugCause,
                intgPending, intgAddr)
    }

    constructor (c: Config)
      ensures config == c && State() == RESET_STATE
    {
      config := c;
      phase, nmiMode, debugMode, stepping, debugPrio := Reset, false, false, false, false;
      loadErr, storeErr, excReq, illegalInsn, debugCause := false, false, false, false, NoCause;
      intgPending, intgAddr := false, 0;
    }

    method Load(n: Registers)
      modifies this
      ensures State() == n
    {
      phase, nmiMode, debugMode, intgPending, intgAddr := n.phase, n.nmiMode, n.debugMode, n.intgPending, n.intgAddr;
      stepping, debugPrio, debugCause := n.stepping, n.debugPrio, n.debugCause;
      loadErr, storeErr, excReq, illegalInsn := n.loadErr, n.storeErr, n.excReq, n.illegalInsn;
    }

    /** One clock cycle. */
    method Step(i: Inputs) returns (out: Outputs)
      modifies this
      ensures State() == Next(config, old(State()), i)
      ensures out == Drive(config, old(State()), i)
    {
      var c, r := config, State();
      var k := Combine(c, r, i);
      var stall := i.stallId || i.stallWb;
      hide Controls, WbException, IdException, Next, State;
      out := Outputs(
        k, !stall && !k.haltIf && !k.retainId, !(stall || k.retainId) || k.flushId,
        WbException(c, r, i), IdException(c, r, i));
      var n := Clock(c, r, i, k);
      Load(n);
    }
  }
}
