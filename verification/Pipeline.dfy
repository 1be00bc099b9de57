/**
 * The controller among its neighbours: the IF/ID register, the ID stage's stall and completion
 * logic, the writeback slot and the load-store unit's responses. Every other signal is free, so a
 * run is any sequence of stimuli.
 */
module Pipeline {
  import opened Controller

  datatype Op = Ordinary | CsrOp | LoadOp | StoreOp | EcallOp | EbreakOp | MretOp | DretOp | WfiOp

  /**
   * The IF/ID register with its decoding. illegal is what the decoder finds before it decides on
   * requests; highReg is the RV32E register check, which comes after that decision.
   */
  datatype Instr = Instr(
    op: Op, illegal: bool, highReg: bool, fetchErr: bool, fetchErrPlus2: bool, bpTaken: bool,
    pc: Address, mtvalInstr: Address)

  datatype Slot = Vacant | Other | LoadWait | StoreWait

  /**
   * The load-store unit without a writeback stage: its state machine is at work on a request, it
   * still owes that many answers, and the last request was a store.
   */
  datatype Lsu = Lsu(busy: bool, owed: nat, store: bool) {
    predicate Idle() {
      !busy && owed == 0
    }
  }

  /**
   * multi: without a writeback stage, the ID stage's own state machine is past its first cycle.
   * finished: a history variable, the instruction in ID has already completed.
   */
  datatype Pipe = Pipe(ctl: Registers, idValid: bool, id: Instr, wb: Slot, multi: bool, lsu: Lsu, finished: bool)

  datatype Stimulus = Stimulus(
    ifValid: bool, ifInstr: Instr,
    hazard: bool, busy: bool, csrIllegal: bool, csrFlush: bool, wfiTraps: bool,
    lsuDone: bool, capture: bool, response: bool, busErr: bool, intgErr: bool, lsuAddr: Address,
    branchSet: bool, branchNotSet: bool, jumpSet: bool,
    mie: bool, irqPending: bool, irqs: Irqs, nmiExt: bool,
    debugReq: bool, singleStep: bool, ebreakM: bool, ebreakU: bool, trigger: bool,
    priv: Privilege, instrExec: bool)

  const NO_INSTR := Instr(Ordinary, false, false, false, false, false, 0, 0)
  const NO_REQUEST := Lsu(false, 0, false)
  const POWER_ON := Pipe(RESET_STATE, false, NO_INSTR, Vacant, false, NO_REQUEST, false)

  // ---------------------------------------------------------------------------------------------
  // Load-store unit and writeback

  predicate Outstanding(p: Pipe) {
    p.wb.LoadWait? || p.wb.StoreWait?
  }

  /** The load-store unit answers a request it was given; while at work on the next one it does not. */
  predicate Responds(p: Pipe, s: Stimulus) {
    s.response && (Outstanding(p) || (p.lsu.owed > 0 && !p.lsu.busy))
  }

  predicate LoadFails(p: Pipe, s: Stimulus) {
    Responds(p, s) && s.busErr && if Outstanding(p) then p.wb.LoadWait? else !p.lsu.store
  }

  predicate StoreFails(p: Pipe, s: Stimulus) {
    Responds(p, s) && s.busErr && if Outstanding(p) then p.wb.StoreWait? else p.lsu.store
  }

  predicate ReadyWb(p: Pipe, s: Stimulus) {
    !Outstanding(p) || Responds(p, s)
  }

  /** The instruction in ID is a memory access the decoder lets through. */
  predicate Accesses(p: Pipe) {
    p.idValid && (p.id.op.LoadOp? || p.id.op.StoreOp?) && !p.id.illegal
  }

  // ---------------------------------------------------------------------------------------------
  // ID stage

  predicate Illegal(p: Pipe, s: Stimulus): (b: bool)
    ensures b ==> p.idValid
  {
    p.idValid
    && (p.id.illegal || p.id.highReg || (p.id.op.CsrOp? && s.csrIllegal) || (p.id.op.DretOp? && !p.ctl.debugMode)
        || (!s.priv.MachineLevel? && (p.id.op.MretOp? || (s.wfiTraps && p.id.op.WfiOp?))))
  }

  /** A load in writeback will write a register this instruction reads. */
  predicate LoadHazard(p: Pipe, s: Stimulus) {
    p.idValid && p.wb.LoadWait? && s.hazard && !p.id.fetchErr && !Illegal(p, s)
    && (p.id.op.Ordinary? || p.id.op.CsrOp? || p.id.op.LoadOp? || p.id.op.StoreOp?)
  }

  /** The instruction in ID raises an exception of its own. */
  predicate Faults(p: Pipe, s: Stimulus) {
    p.idValid && (Illegal(p, s) || p.id.op.EcallOp? || p.id.op.EbreakOp? || p.id.fetchErr)
  }

  /** The instruction in writeback takes, or has just taken, an exception. */
  predicate MemoryFault(p: Pipe, s: Stimulus) {
    p.ctl.loadErr || p.ctl.storeErr || LoadFails(p, s) || StoreFails(p, s)
  }

  predicate Executing(c: Config, p: Pipe, s: Stimulus) {
    p.idValid && p.ctl.phase.Decode? && !p.id.fetchErr
    && (c.writebackStage ==> !MemoryFault(p, s) && !Faults(p, s) && !LoadHazard(p, s) && ReadyWb(p, s))
  }

  predicate StallMem(c: Config, p: Pipe, s: Stimulus) {
    if c.writebackStage
    then p.idValid && (!ReadyWb(p, s) || (Accesses(p) && !(s.lsuDone && Executing(c, p, s))))
    else Accesses(p) && !(p.multi && Responds(p, s))
  }

  /** Multiplication, division, branches, jumps and two-cycle arithmetic; the register check does not stop these. */
  predicate StallBusy(p: Pipe, s: Stimulus) {
    p.idValid && p.ctl.phase.Decode? && p.id.op.Ordinary? && !p.id.fetchErr && !p.id.illegal && !LoadHazard(p, s)
    && s.busy
  }

  predicate StallsId(c: Config, p: Pipe, s: Stimulus) {
    LoadHazard(p, s) || StallMem(c, p, s) || StallBusy(p, s)
  }

  /** instr_done; flush_id is low whenever an instruction executes. */
  predicate Done(c: Config, p: Pipe, s: Stimulus) {
    Executing(c, p, s) && !StallsId(c, p, s)
  }

  /** The instruction in ID leaves for writeback, or retires when there is none. */
  predicate Completes(c: Config, p: Pipe, s: Stimulus) {
    Done(c, p, s) && ReadyWb(p, s)
  }

  /** The ID stage hands a request to the load-store unit. */
  predicate Issues(c: Config, p: Pipe, s: Stimulus) {
    Executing(c, p, s) && Accesses(p) && (!c.writebackStage ==> !p.multi)
  }

  /** A branch in ID resolves as not taken; decided without waiting for outstanding memory accesses. */
  predicate NotTaken(p: Pipe, s: Stimulus) {
    p.idValid && p.ctl.phase.Decode? && p.id.op.Ordinary? && !p.id.fetchErr && !p.id.illegal && !LoadHazard(p, s)
    && s.branchNotSet
  }

  function Feed(c: Config, p: Pipe, s: Stimulus): Inputs {
    Inputs(
      instrValid := p.idValid, illegalInsn := Illegal(p, s), ecallInsn := p.id.op.EcallOp?,
      mretInsn := p.id.op.MretOp?, dretInsn := p.id.op.DretOp?, wfiInsn := p.id.op.WfiOp?,
      ebrkInsn := p.id.op.EbreakOp?, csrPipeFlush := p.id.op.CsrOp? && s.csrFlush && Completes(c, p, s),
      fetchErr := p.id.fetchErr, fetchErrPlus2 := p.id.fetchErrPlus2, bpTaken := p.id.bpTaken, pc := p.id.pc,
      mtvalInstr := p.id.mtvalInstr, lsuAddr := s.lsuAddr, loadErr := LoadFails(p, s), storeErr := StoreFails(p, s),
      intgErr := s.intgErr, branchSet := s.branchSet, branchNotSet := NotTaken(p, s), jumpSet := s.jumpSet,
      mie := s.mie, irqPending := s.irqPending, irqs := s.irqs, nmiExt := s.nmiExt,
      debugReq := s.debugReq, singleStep := s.singleStep, ebreakM := s.ebreakM, ebreakU := s.ebreakU,
      trigger := s.trigger, priv := s.priv, instrExec := s.instrExec,
      stallId := StallsId(c, p, s), stallWb := Done(c, p, s) && !ReadyWb(p, s), readyWb := ReadyWb(p, s))
  }

  // ---------------------------------------------------------------------------------------------
  // One clock cycle and runs

  function Signals(c: Config, p: Pipe, s: Stimulus): Control {
    Controls(c, p.ctl, Feed(c, p, s))
  }

  /** The IF/ID register is written. */
  predicate Accepts(c: Config, p: Pipe, s: Stimulus) {
    s.ifValid && IdInReady(Feed(c, p, s), Signals(c, p, s))
  }

  /** The IF stage hands a valid instruction to ID: a jump in the same cycle squashes it. */
  predicate Admits(c: Config, p: Pipe, s: Stimulus) {
    Accepts(c, p, s) && !Signals(c, p, s).redirect.jump
  }

  /** The instruction in ID stays for another cycle. */
  predicate Stays(c: Config, p: Pipe, s: Stimulus) {
    p.idValid && !ValidClear(Feed(c, p, s), Signals(c, p, s))
  }

  function NextSlot(c: Config, p: Pipe, s: Stimulus): Slot {
    if !c.writebackStage then Vacant
    else if Completes(c, p, s) then
      (if !Accesses(p) then Other else if p.id.op.LoadOp? then LoadWait else StoreWait)
    else if ReadyWb(p, s) then Vacant
    else p.wb
  }

  /** A memory access is past its first cycle until it is answered, everything else as long as it is busy. */
  predicate NextMulti(c: Config, p: Pipe, s: Stimulus) {
    !c.writebackStage
    && if !Executing(c, p, s) then p.multi
       else if Accesses(p) then !(p.multi && Responds(p, s)) else StallBusy(p, s)
  }

  /** A request that comes while another one is worked on is not seen; its direction may be. */
  function NextLsu(c: Config, p: Pipe, s: Stimulus): Lsu {
    if c.writebackStage then p.lsu else
      var starts := Issues(c, p, s) && !p.lsu.busy;
      var active := p.lsu.busy || starts;
      Lsu(
        active && !s.lsuDone,
        p.lsu.owed + (if active && s.lsuDone then 1 else 0) - (if Responds(p, s) && p.lsu.owed > 0 then 1 else 0),
        if starts || (p.lsu.busy && s.capture) then p.id.op.StoreOp? && !p.id.illegal else p.lsu.store)
  }

  /** Only RV32E checks for registers past x15. */
  function Decoded(c: Config, i: Instr): Instr {
    i.(highReg := c.rv32e && i.highReg)
  }

  function Advance(c: Config, p: Pipe, s: Stimulus): Pipe {
    Pipe(
      Next(c, p.ctl, Feed(c, p, s)),
      Admits(c, p, s) || Stays(c, p, s),
      if Accepts(c, p, s) then Decoded(c, s.ifInstr) else p.id,
      NextSlot(c, p, s),
      NextMulti(c, p, s),
      NextLsu(c, p, s),
      Stays(c, p, s) && (p.finished || Completes(c, p, s)))
  }

  /** State after a sequence of cycles. */
  function After(c: Config, p: Pipe, run: seq<Stimulus>): Pipe
    decreases |run|
  {
    hide *;
    if run == [] then p else After(c, Advance(c, p, run[0]), run[1..])
  }

  // ---------------------------------------------------------------------------------------------
  // The invariant

  predicate Raises(p: Pipe) {
    p.idValid && (p.ctl.illegalInsn || p.id.op.EcallOp? || p.id.op.EbreakOp? || p.id.fetchErr)
  }

  /** FLUSH finds either an exception to take or a finished special instruction. */
  predicate FlushInv(c: Config, p: Pipe) {
    var r := p.ctl;
    && !Outstanding(p)
    && (r.debugPrio ==> !r.debugMode)
    && (r.excReq ==> Raises(p))
    && (c.writebackStage && Trapping(r) ==> !p.finished)
    && (!Trapping(r) ==>
          && p.idValid && p.finished && p.id.op in {CsrOp, MretOp, DretOp, WfiOp}
          && (p.id.op.DretOp? ==> r.debugMode))
  }

  /** What every configuration keeps. */
  predicate Core(c: Config, p: Pipe) {
    var r := p.ctl;
    && (!c.rv32e ==> !p.id.highReg)
    && (if c.writebackStage then !p.multi && p.lsu.Idle() else p.wb.Vacant?)
    && (!r.phase.Decode? && !r.phase.Flush? ==> !p.idValid && p.wb.Vacant?)
    && (r.phase.IrqTaken? ==> !r.debugMode && !r.nmiMode)
    && (p.finished ==> p.idValid && r.phase.Flush?)
    && (r.phase.Flush? ==> FlushInv(c, p))
  }

  /**
   * With the writeback stage an illegal instruction never executes. Without it, RV32E lets a memory
   * access to a missing register issue its request in the cycle that rejects it.
   */
  predicate Contains(c: Config) {
    c.writebackStage || !c.rv32e
  }

  /** The one unanswered request belongs to the memory access in ID. */
  predicate Owned(p: Pipe) {
    (p.multi ==> p.ctl.phase.Decode? && p.idValid && !p.id.fetchErr && !p.id.illegal)
    && (if p.multi && Accesses(p) then p.lsu.owed == (if p.lsu.busy then 0 else 1) && p.lsu.store == p.id.op.StoreOp?
        else p.lsu.Idle())
  }

  /** What holds besides where no rejected access reaches memory. */
  predicate MemoryInv(c: Config, p: Pipe) {
    var r := p.ctl;
    && (!c.writebackStage ==> Owned(p))
    && (r.loadErr || r.storeErr ==> r.phase.Flush? && !(r.loadErr && r.storeErr))
    && (!c.writebackStage && r.phase.Flush? && r.excReq ==> !r.loadErr && !r.storeErr)
  }

  predicate Inv(c: Config, p: Pipe) {
    Core(c, p) && (Contains(c) ==> MemoryInv(c, p))
  }

  /** What the controller makes of the wires. */
  lemma Wires(c: Config, p: Pipe, s: Stimulus)
    ensures var r, i := p.ctl, Feed(c, p, s);
      && Ecall(i) == (p.idValid && p.id.op.EcallOp?) && Ebreak(i) == (p.idValid && p.id.op.EbreakOp?)
      && FetchErr(i) == (p.idValid && p.id.fetchErr) && i.illegalInsn == Illegal(p, s)
      && i.loadErr == LoadFails(p, s) && i.storeErr == StoreFails(p, s) && i.readyWb == ReadyWb(p, s)
      && i.lsuAddr == s.lsuAddr && i.singleStep == s.singleStep && i.debugReq == s.debugReq && i.trigger == s.trigger
      && i.instrValid == p.idValid
      && IdWbPending(i) == (p.idValid || !ReadyWb(p, s))
      && Stall(i) == (StallsId(c, p, s) || (Done(c, p, s) && !ReadyWb(p, s)))
  {
    hide Illegal, LoadFails, StoreFails, Completes, StallsId, Done, ReadyWb;
  }

  /** What the ID stage rejects of the instructions that decode: by privilege, debug mode and CSR access. */
  lemma PrivilegeChecked(c: Config, p: Pipe, s: Stimulus)
    requires p.ctl.phase.Decode? && p.idValid && !p.id.illegal && !p.id.highReg
    ensures var rejected := Advance(c, p, s).ctl.illegalInsn;
      match p.id.op
      case MretOp => rejected == !s.priv.MachineLevel?
      case WfiOp => rejected == (!s.priv.MachineLevel? && s.wfiTraps)
      case DretOp => rejected == !p.ctl.debugMode
      case CsrOp => rejected == s.csrIllegal
      case _ => !rejected
  {
    hide Controls, NextDebugCause, NextSlot, NextMulti, NextLsu, Admits, Stays, Accepts, Delivers, Records;
  }

  /** A stall lets nothing leave ID and nothing in. */
  lemma StallHolds(c: Config, p: Pipe, s: Stimulus)
    requires StallsId(c, p, s)
    ensures !Completes(c, p, s) && !Accepts(c, p, s)
  {
    hide StallsId, Executing, Controls, Illegal, LoadFails, StoreFails, NotTaken, ReadyWb;
  }

  /** An instruction waits in ID for the load whose result it reads, and a memory access until it is handed over. */
  lemma WaitsInId(c: Config, p: Pipe, s: Stimulus)
    requires c.writebackStage && p.idValid && !p.id.fetchErr && !Illegal(p, s)
    requires p.id.op.Ordinary? || p.id.op.CsrOp? || p.id.op.LoadOp? || p.id.op.StoreOp?
    ensures p.wb.LoadWait? && s.hazard ==> !Completes(c, p, s) && !Issues(c, p, s) && !Accepts(c, p, s)
    ensures Accesses(p) && !s.lsuDone ==> !Completes(c, p, s) && !Accepts(c, p, s)
    ensures Accesses(p) && !Executing(c, p, s) ==> !Accepts(c, p, s)
    ensures (p.wb.LoadWait? || p.wb.StoreWait?) && !s.response ==> !Completes(c, p, s) && !Accepts(c, p, s)
  {
    hide Accepts, Completes, Illegal, MemoryFault, Faults, Feed, Signals;
    if StallsId(c, p, s) {
      StallHolds(c, p, s);
    }
  }

  /** With writeback stage what does not execute is killed or stalls, and nothing is done beside a memory fault. */
  lemma ExecutesOrStalls(c: Config, p: Pipe, s: Stimulus)
    requires c.writebackStage
    ensures p.idValid && p.ctl.phase.Decode? && !p.id.fetchErr && !MemoryFault(p, s) && !Faults(p, s) ==>
              Executing(c, p, s) || StallsId(c, p, s)
    ensures Done(c, p, s) ==> !MemoryFault(p, s) && !(Outstanding(p) && !Responds(p, s))
    ensures Accesses(p) && Executing(c, p, s) && !Done(c, p, s) ==> !s.lsuDone
  {
    hide Illegal, MemoryFault, Faults;
  }

  /** The load-store unit takes the direction of a request when it starts, and again while at work. */
  lemma DirectionCaptured(c: Config, p: Pipe, s: Stimulus)
    requires !c.writebackStage
    ensures var captures := if p.lsu.busy then s.capture else Issues(c, p, s);
      Advance(c, p, s).lsu.store == if captures then p.id.op.StoreOp? && !p.id.illegal else p.lsu.store
  {
    hide Next, Controls, Admits, Stays, Accepts, NextSlot, NextMulti;
  }

  /** The exception requests as the pipeline sees them. */
  lemma Requests(c: Config, p: Pipe, s: Stimulus)
    ensures var r, i := p.ctl, Feed(c, p, s);
      && ExcRequest(r, i) == (Faults(p, s) && !r.phase.Flush?)
      && IllegalNow(r, i) == (Illegal(p, s) && !r.phase.Flush?)
      && WbException(c, r, i) == (c.writebackStage && MemoryFault(p, s))
  {
    hide Feed, Illegal, LoadFails, StoreFails, ReadyWb, Ecall, Ebreak, FetchErr, Stall, IdWbPending;
    Wires(c, p, s);
  }

  /** The instruction in ID, or a memory fault, needs FLUSH. */
  predicate Special(c: Config, p: Pipe, s: Stimulus) {
    || (p.idValid && (p.id.op.MretOp? || p.id.op.DretOp? || p.id.op.WfiOp?))
    || (p.id.op.CsrOp? && s.csrFlush && Completes(c, p, s))
    || (Faults(p, s) && !p.ctl.phase.Flush?) || LoadFails(p, s) || StoreFails(p, s)
  }

  lemma Specials(c: Config, p: Pipe, s: Stimulus)
    ensures var r, i := p.ctl, Feed(c, p, s);
      && Mret(i) == (p.idValid && p.id.op.MretOp?) && Dret(i) == (p.idValid && p.id.op.DretOp?)
      && Wfi(i) == (p.idValid && p.id.op.WfiOp?)
      && SpecialRequest(r, i) == Special(c, p, s)
  {
    hide ExcRequest, Illegal, LoadFails, StoreFails, Faults, StallsId, ReadyWb;
    Wires(c, p, s);
    Requests(c, p, s);
  }

  /** With nothing in ID and writeback, a cycle can only admit an instruction. */
  lemma EmptyPipe(c: Config, p: Pipe, s: Stimulus)
    requires !p.idValid && p.wb.Vacant?
    ensures var a := Advance(c, p, s);
      && a.idValid == Admits(c, p, s) && a.wb.Vacant? && !a.finished && !a.ctl.excReq
      && (a.multi ==> p.multi) && (c.writebackStage ==> a.lsu == p.lsu)
      && (p.lsu.Idle() ==> a.lsu.Idle() && !a.ctl.loadErr && !a.ctl.storeErr)
  {
    hide Feed, Controls, IdInReady, Delivers, Records, Prio;
    hide StepNow, DebugPriority, ExcRequest, IllegalNow, NextDebugCause;
    Wires(c, p, s);
    Requests(c, p, s);
  }

  /** With no memory fault and nothing in ID there is no request either. */
  lemma EmptyMemory(c: Config, p: Pipe, s: Stimulus)
    requires !p.idValid && p.wb.Vacant? && (Contains(c) ==> MemoryInv(c, p)) && Core(c, p)
    ensures Contains(c) ==> MemoryInv(c, Advance(c, p, s))
  {
    hide Feed, Controls, Advance, FlushInv, Accesses;
    EmptyPipe(c, p, s);
  }

  lemma AsleepKeeps(c: Config, p: Pipe, s: Stimulus)
    requires Inv(c, p) && (p.ctl.phase.WaitSleep? || p.ctl.phase.Sleep?)
    ensures Inv(c, Advance(c, p, s))
  {
    hide FirstFetchRow, DecodeRow, IrqRow, DebugRow, TrapRow, SpecialRow, Trapping;
    hide Feed, WakesUp, Delivers, Records, Prio, StepNow, DebugPriority, ExcRequest, IllegalNow, NextDebugCause;
    hide NextLsu, NextMulti, NextSlot, Issues, FlushInv, MemoryInv;
    EmptyMemory(c, p, s);
    EmptyPipe(c, p, s);
  }

  lemma BootKeeps(c: Config, p: Pipe, s: Stimulus)
    requires Inv(c, p) && (p.ctl.phase.Reset? || p.ctl.phase.BootSet?)
    ensures Inv(c, Advance(c, p, s))
  {
    hide AsleepRow, FirstFetchRow, DecodeRow, IrqRow, DebugRow, TrapRow, SpecialRow, Trapping;
    hide Feed, Delivers, Records, Prio, StepNow, DebugPriority, ExcRequest, IllegalNow, NextDebugCause, Stall;
    hide NextLsu, NextMulti, NextSlot, Issues, FlushInv, MemoryInv;
    EmptyMemory(c, p, s);
    EmptyPipe(c, p, s);
  }

  lemma FirstFetchKeeps(c: Config, p: Pipe, s: Stimulus)
    requires Inv(c, p) && p.ctl.phase.FirstFetch?
    ensures Inv(c, Advance(c, p, s))
  {
    hide AsleepRow, DecodeRow, IrqRow, DebugRow, TrapRow, SpecialRow, Trapping, NmiPending;
    hide Feed, Delivers, Records, Prio, StepNow, EnterDebug;
    hide DebugPriority, ExcRequest, IllegalNow, NextDebugCause, Stall;
    hide NextLsu, NextMulti, NextSlot, Issues, FlushInv, MemoryInv;
    EmptyMemory(c, p, s);
    EmptyPipe(c, p, s);
  }

  lemma EntryNext(c: Config, r: Registers, i: Inputs)
    requires r.phase.IrqTaken? || r.phase.DbgTakenIf? || r.phase.DbgTakenId?
    ensures Controls(c, r, i).next.Decode?
  {
    hide AsleepRow, FirstFetchRow, DecodeRow, TrapRow, SpecialRow, Trapping;
    hide HandleIrq, IrqCause, SavesDebugFromId, EntersNmi, Delivers;
  }

  lemma EntryKeeps(c: Config, p: Pipe, s: Stimulus)
    requires Inv(c, p) && (p.ctl.phase.IrqTaken? || p.ctl.phase.DbgTakenIf? || p.ctl.phase.DbgTakenId?)
    ensures Inv(c, Advance(c, p, s))
  {
    hide Feed, Controls, Delivers, Records, StepNow, DebugPriority, ExcRequest, IllegalNow, NextDebugCause;
    hide NextLsu, NextMulti, NextSlot, Issues, FlushInv, MemoryInv, Accepts, Admits, Stays;
    EntryNext(c, p.ctl, Feed(c, p, s));
    EmptyMemory(c, p, s);
    EmptyPipe(c, p, s);
  }


  /** Where DECODE goes, and what that means for the instruction in ID. */
  lemma DecodeMoves(c: Config, p: Pipe, s: Stimulus)
    requires p.ctl.phase.Decode?
    ensures var r, k := p.ctl, Signals(c, p, s);
      && k.debugModeD == r.debugMode && k.nmiModeD == r.nmiMode && !k.flushId
      && (k.next.Flush? <==> Special(c, p, s) && (ReadyWb(p, s) || (c.writebackStage && MemoryFault(p, s))))
      && k.next in {Decode, Flush, IrqTaken, DbgTakenIf}
      && (k.next.IrqTaken? ==> !r.debugMode && !r.nmiMode)
      && (k.next.IrqTaken? || k.next.DbgTakenIf? ==>
            !Special(c, p, s) && !p.idValid && ReadyWb(p, s) && !Accepts(c, p, s))
      && (Stays(c, p, s) ==> p.idValid)
      && (Special(c, p, s) || StallsId(c, p, s) ==> Stays(c, p, s) == p.idValid && !Accepts(c, p, s))
      && (Completes(c, p, s) && Stays(c, p, s) ==> Special(c, p, s))
  {
    hide Feed, SpecialRequest, ExcRequest, WbException, IdWbPending, EnterDebug, NmiPending, Ecall, Ebreak, FetchErr;
    hide AsleepRow, FirstFetchRow, IrqRow, DebugRow, TrapRow, SpecialRow, Special, MemoryFault, StallsId, Executing;
    Wires(c, p, s);
    Requests(c, p, s);
    Specials(c, p, s);
  }

  lemma DecodeKeeps(c: Config, p: Pipe, s: Stimulus)
    requires Inv(c, p) && p.ctl.phase.Decode?
    ensures Inv(c, Advance(c, p, s))
  {
    hide Feed, Accepts, Stays, ExcRequest, IllegalNow, StepNow, Prio, NextDebugCause, Delivers, Records, Controls;
    Requests(c, p, s);
    Wires(c, p, s);
    DecodeMoves(c, p, s);
  }

  lemma FlushNext(c: Config, r: Registers, i: Inputs)
    requires r.phase.Flush?
    ensures Controls(c, r, i).next in {Decode, DbgTakenIf, DbgTakenId, WaitSleep}
  {
    hide Prio, TrapReport, DebugFirst, EbreakDebugs, Trapping, Mret, Dret, Wfi;
  }

  lemma FlushEmpties(c: Config, p: Pipe, s: Stimulus)
    requires Inv(c, p) && p.ctl.phase.Flush?
    ensures !Stays(c, p, s) && !Admits(c, p, s)
  {
    hide Feed, TrapReport, DebugFirst, AsleepRow, DecodeRow, FirstFetchRow, IrqRow, DebugRow, Done, Illegal, Raises;
    Wires(c, p, s);
  }

  lemma FlushKeeps(c: Config, p: Pipe, s: Stimulus)
    requires Inv(c, p) && p.ctl.phase.Flush?
    ensures Inv(c, Advance(c, p, s))
  {
    hide Feed, Controls, ExcRequest, IllegalNow, NextDebugCause, Delivers;
    hide Records, StepNow, DebugPriority, Stays, Admits;
    hide StallsId, Raises;
    Wires(c, p, s);
    FlushNext(c, p.ctl, Feed(c, p, s));
    FlushEmpties(c, p, s);
  }

  lemma StepKeeps(c: Config, p: Pipe, s: Stimulus)
    requires Inv(c, p)
    ensures Inv(c, Advance(c, p, s))
  {
    hide *;
    match p.ctl.phase {
      case Reset | BootSet => BootKeeps(c, p, s);
      case WaitSleep | Sleep => AsleepKeeps(c, p, s);
      case FirstFetch => FirstFetchKeeps(c, p, s);
      case Decode => DecodeKeeps(c, p, s);
      case Flush => FlushKeeps(c, p, s);
      case IrqTaken | DbgTakenIf | DbgTakenId => EntryKeeps(c, p, s);
    }
  }
}
