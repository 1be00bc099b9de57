/**
 * The PMP part of the CSR reference model: mseccfg, pmpcfg and pmpaddr registers whose write masks
 * depend on one another's values.
 */
module PmpRegisters {
  import opened Bits

  /** A 32-bit CSR value, bit 0 first. */
  type Csr = Word

  const MML := 0
  const MMWP := 1
  const RLB := 2

  const MSECCFG_ADDR := 0x747
  const MSECCFGH_ADDR := 0x757
  const CFG_ADDR := 0x3A0
  const ADDR_ADDR := 0x3B0

  datatype Kind = Mseccfg | PmpCfg | PmpAddr | NonImp

  datatype Register = Register(kind: Kind, addr: nat, value: Csr)

  /** mseccfg, mseccfgh, four pmpcfg and sixteen pmpaddr registers. */
  type Bank = b: seq<Register> | |b| == 22 witness seq(22, i => Register(NonImp, 0, seq(32, k => false)))

  datatype Params = Params(pmpEnable: bool, numRegions: nat)

  datatype Operation = Read | Write | Set | Clear

  // ---------------------------------------------------------------------------------------------
  // Layout

  function AddrOf(i: nat): nat
    requires i < 22
  {
    if i == 0 then MSECCFG_ADDR else if i == 1 then MSECCFGH_ADDR
    else if i < 6 then CFG_ADDR + (i - 2) else ADDR_ADDR + (i - 6)
  }

  function KindOf(p: Params, i: nat): Kind
    requires i < 22
  {
    if i == 0 then Mseccfg else if i == 1 then NonImp
    else if i < 6 then (if p.pmpEnable && i - 2 < p.numRegions / 4 then PmpCfg else NonImp)
    else (if p.pmpEnable && i - 6 < p.numRegions then PmpAddr else NonImp)
  }

  predicate Layout(p: Params, b: Bank) {
    forall i :: 0 <= i < 22 ==> b[i].addr == AddrOf(i) && b[i].kind == KindOf(p, i)
  }

  function Value(r: Register): Csr {
    if r.kind.NonImp? then Zeros() else r.value
  }

  function Cfg(b: Bank, j: nat): Csr
  {
    // past the last pmpcfg register nothing is found and the value stays 0
    if j < 4 then Value(b[2 + j]) else Zeros()
  }

  function Index(addr: nat): (i: int)
    ensures i == -1 || (0 <= i < 22 && AddrOf(i) == addr)
    ensures i == -1 ==> forall k :: 0 <= k < 22 ==> AddrOf(k) != addr
  {
    if addr == MSECCFG_ADDR then 0 else if addr == MSECCFGH_ADDR then 1
    else if CFG_ADDR <= addr < CFG_ADDR + 4 then addr - CFG_ADDR + 2
    else if ADDR_ADDR <= addr < ADDR_ADDR + 16 then addr - ADDR_ADDR + 6 else -1
  }

  // ---------------------------------------------------------------------------------------------
  // Bytes of a pmpcfg register: R, W, X, two mode bits, two bits that read as zero, L

  type Byte = k: int | 0 <= k < 4

  predicate LockedByte(cfg: Csr, k: Byte) {
    cfg[8 * k + 7]
  }

  predicate TorByte(cfg: Csr, k: Byte) {
    cfg[8 * k + 3] && !cfg[8 * k + 4]
  }

  /** W without R. */
  predicate ReservedByte(cfg: Csr, k: Byte) {
    cfg[8 * k + 1] && !cfg[8 * k]
  }

  /** 0x9F9F9F9F */
  function RazMask(): Csr {
    seq(32, i => i % 8 != 5 && i % 8 != 6)
  }

  /** 0x3 << (8 * k) */
  function AccessMask(k: Byte): Csr {
    seq(32, i => i == 8 * k || i == 8 * k + 1)
  }

  /** 0xFF << (8 * k) */
  function ByteMask(k: Byte): Csr {
    seq(32, i => i / 8 == k)
  }

  function FixByte(cfg: Csr, k: Byte): Csr {
    if ReservedByte(cfg, k) then And(cfg, Not(AccessMask(k))) else cfg
  }

  /** Bytes 0..n with their reserved access bits cleared. */
  function FixBytes(cfg: Csr, n: nat): Csr
    requires n <= 4
  {
    if n == 0 then cfg else FixByte(FixBytes(cfg, n - 1), n - 1)
  }

  function FixReserved(mml: bool, cfg: Csr): Csr {
    if mml then And(cfg, RazMask()) else FixBytes(And(cfg, RazMask()), 4)
  }

  // ---------------------------------------------------------------------------------------------
  // Lock masks and writes

  /** A bit of 0x80808080 is set. */
  predicate AnyLockBit(cfg: Csr) {
    LockedByte(cfg, 0) || LockedByte(cfg, 1) || LockedByte(cfg, 2) || LockedByte(cfg, 3)
  }

  predicate AnyLocked(b: Bank)
  {
    exists j :: 0 <= j < 4 && AnyLockBit(Cfg(b, j))
  }

  /** RLB sticks at 0 while a region is locked, MMWP and MML stick at 1, the rest is not writable. */
  function MseccfgLock(value: Csr, anyLocked: bool): Csr {
    seq(32, i requires 0 <= i < 32 =>
      if i == RLB then anyLocked && !value[RLB] else if i == MMWP || i == MML then value[i] else true)
  }

  /** Whole bytes whose L bit is set. */
  function CfgLock(bypass: bool, value: Csr): Csr {
    seq(32, i requires 0 <= i < 32 => !bypass && LockedByte(value, i / 8))
  }

  /** Region n has its L bit set, or region n + 1 ranges from pmpaddr n. */
  predicate AddrLocked(b: Bank, n: nat)
    requires n < 16
  {
    LockedByte(Cfg(b, n / 4), n % 4) || TorByte(Cfg(b, (n + 1) / 4), (n + 1) % 4)
  }

  /** All ones or all zeros. */
  function AddrLock(b: Bank, n: nat): Csr
    requires n < 16
  {
    if AddrLocked(b, n) then Not(Zeros()) else Zeros()
  }

  function LockMask(b: Bank, i: nat): Csr
    requires i < 22
  {
    match b[i].kind
    case Mseccfg => MseccfgLock(b[i].value, AnyLocked(b))
    case PmpCfg => CfgLock(b[0].value[RLB], b[i].value)
    case PmpAddr => if 6 <= i then AddrLock(b, i - 6) else Zeros()
    case NonImp => Zeros()
  }

  /** What an operation makes of an unlocked bit. */
  function MergeBit(op: Operation, stored: bool, w: bool): bool {
    match op
    case Read => stored
    case Write => w
    case Set => stored || w
    case Clear => stored && !w
  }

  /** A locked bit keeps its value, the others are written, set or cleared. */
  function Merge(op: Operation, value: Csr, wdata: Csr, lock: Csr): Csr {
    seq(32, i requires 0 <= i < 32 => if lock[i] then value[i] else MergeBit(op, value[i], wdata[i]))
  }

  function NewValue(b: Bank, i: nat, op: Operation, wdata: Csr): Csr
    requires i < 22
  {
    var merged := Merge(op, b[i].value, wdata, LockMask(b, i));
    if b[i].kind.NonImp? || op.Read? then b[i].value
    else if b[i].kind.PmpCfg? then FixReserved(b[0].value[MML], merged)
    else merged
  }

  datatype Transaction = Transaction(op: Operation, addr: nat, wdata: Csr)

  function Apply(b: Bank, t: Transaction): Bank {
    var i := Index(t.addr);
    if i == -1 then b else b[i := b[i].(value := NewValue(b, i, t.op, t.wdata))]
  }

  function Play(b: Bank, ts: seq<Transaction>): Bank
    decreases |ts|
  {
    if ts == [] then b else Play(Apply(b, ts[0]), ts[1..])
  }

  function Cleared(p: Params): (b: Bank)
    ensures Layout(p, b)
  {
    seq(22, i requires 0 <= i < 22 => Register(KindOf(p, i), AddrOf(i), Zeros()))
  }
}
