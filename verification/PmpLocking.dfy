/**
 * Locked stays locked: once a region's L bit is set with rule locking bypass off, nothing but a
 * reset changes its configuration byte, its address or the bypass bit.
 */
module PmpLocking {
  import opened Bits
  import opened PmpRegisters

  // ---------------------------------------------------------------------------------------------
  // Bytes

  predicate SameByte(a: Csr, b: Csr, k: Byte) {
    forall i :: 8 * k <= i < 8 * k + 8 ==> a[i] == b[i]
  }

  /** A byte that may be stored: reserved bits clear, and W without R only under MML. */
  predicate LegalByte(mml: bool, cfg: Csr, k: Byte) {
    !cfg[8 * k + 5] && !cfg[8 * k + 6] && (mml || !ReservedByte(cfg, k))
  }

  predicate LegalCfg(mml: bool, cfg: Csr) {
    LegalByte(mml, cfg, 0) && LegalByte(mml, cfg, 1) && LegalByte(mml, cfg, 2) && LegalByte(mml, cfg, 3)
  }

  lemma FixByteAt(cfg: Csr, k: Byte, i: nat)
    requires i < 32
    ensures FixByte(cfg, k)[i] == (cfg[i] && !(ReservedByte(cfg, k) && (i == 8 * k || i == 8 * k + 1)))
  {
  }

  /** Fixing the first n bytes touches no other byte and no bit but R and W of a reserved one. */
  lemma {:induction false} FixBytesAt(cfg: Csr, n: nat, k: Byte, i: nat)
    requires n <= 4 && 8 * k <= i < 8 * k + 8
    ensures FixBytes(cfg, n)[i] == (cfg[i] && !(k < n && ReservedByte(cfg, k) && i <= 8 * k + 1))
    decreases n
  {
    if n > 0 {
      FixBytesAt(cfg, n - 1, k, i);
      FixByteAt(FixBytes(cfg, n - 1), n - 1, i);
      FixBytesAt(cfg, n - 1, n - 1, 8 * (n - 1));
      FixBytesAt(cfg, n - 1, n - 1, 8 * (n - 1) + 1);
    }
  }

  /** A bit of the value stored in a pmpcfg register. */
  lemma FixReservedAt(mml: bool, cfg: Csr, k: Byte, i: nat)
    requires 8 * k <= i < 8 * k + 8
    ensures FixReserved(mml, cfg)[i] ==
            (cfg[i] && i != 8 * k + 5 && i != 8 * k + 6 && !(!mml && ReservedByte(cfg, k) && i <= 8 * k + 1))
  {
    var v := And(cfg, RazMask());
    RazAt(cfg, k, i);
    RazAt(cfg, k, 8 * k);
    RazAt(cfg, k, 8 * k + 1);
    FixBytesAt(v, 4, k, i);
  }

  lemma RazAt(cfg: Csr, k: Byte, i: nat)
    requires 8 * k <= i < 8 * k + 8
    ensures And(cfg, RazMask())[i] == (cfg[i] && i != 8 * k + 5 && i != 8 * k + 6)
  {
  }

  /** Reserved-value fixing leaves a legal byte alone. */
  lemma FixKeepsLegal(mml: bool, cfg: Csr, k: Byte)
    requires LegalByte(mml, cfg, k)
    ensures SameByte(FixReserved(mml, cfg), cfg, k)
  {
    hide FixReserved;
    forall i | 8 * k <= i < 8 * k + 8
      ensures FixReserved(mml, cfg)[i] == cfg[i]
    {
      FixReservedAt(mml, cfg, k, i);
    }
  }

  lemma FixMakesLegal(mml: bool, cfg: Csr, k: Byte)
    ensures LegalByte(mml, FixReserved(mml, cfg), k)
  {
    hide FixReserved;
    FixReservedAt(mml, cfg, k, 8 * k + 5);
    FixReservedAt(mml, cfg, k, 8 * k + 6);
    FixReservedAt(mml, cfg, k, 8 * k);
    FixReservedAt(mml, cfg, k, 8 * k + 1);
  }

  lemma SameByteLegal(mml: bool, a: Csr, b: Csr, k: Byte)
    requires SameByte(a, b, k)
    ensures LegalByte(mml, a, k) == LegalByte(mml, b, k)
    ensures LockedByte(a, k) == LockedByte(b, k) && TorByte(a, k) == TorByte(b, k)
  {
    assert a[8 * k] == b[8 * k] && a[8 * k + 1] == b[8 * k + 1] && a[8 * k + 5] == b[8 * k + 5];
    assert a[8 * k + 3] == b[8 * k + 3] && a[8 * k + 4] == b[8 * k + 4];
    assert a[8 * k + 6] == b[8 * k + 6] && a[8 * k + 7] == b[8 * k + 7];
  }

  // ---------------------------------------------------------------------------------------------
  // The joint invariant

  /** Stored pmpcfg bytes are always legal for the current MML. */
  predicate Inv(p: Params, b: Bank) {
    && Layout(p, b)
    && (forall j :: 2 <= j < 6 ==> LegalCfg(b[0].value[MML], b[j].value))
    && (forall i :: 0 <= i < 22 && b[i].kind.NonImp? ==> b[i].value == Zeros())
  }

  lemma ClearedInv(p: Params)
    ensures Inv(p, Cleared(p))
  {
  }

  /** A locked byte survives every operation on its register while RLB is clear. */
  lemma LockedByteKept(mml: bool, op: Operation, value: Csr, wdata: Csr, k: Byte)
    requires LockedByte(value, k) && LegalByte(mml, value, k)
    ensures SameByte(FixReserved(mml, Merge(op, value, wdata, CfgLock(false, value))), value, k)
  {
    hide FixReserved;
    var merged := Merge(op, value, wdata, CfgLock(false, value));
    forall i | 8 * k <= i < 8 * k + 8
      ensures merged[i] == value[i]
    {
      assert i / 8 == k;
    }
    SameByteLegal(mml, merged, value, k);
    FixKeepsLegal(mml, merged, k);
  }

  /** MML and MMWP never fall. */
  lemma StickyBits(p: Params, b: Bank, t: Transaction)
    requires Layout(p, b)
    ensures b[0].value[MML] ==> Apply(b, t)[0].value[MML]
    ensures b[0].value[MMWP] ==> Apply(b, t)[0].value[MMWP]
  {
    hide AnyLocked, FixReserved;
  }

  lemma ApplyKeepsInv(p: Params, b: Bank, t: Transaction)
    requires Inv(p, b)
    ensures Inv(p, Apply(b, t))
  {
    hide FixReserved, LockMask, Merge, AnyLocked;
    var r, i := Apply(b, t), Index(t.addr);
    StickyBits(p, b, t);
    forall j | 2 <= j < 6
      ensures LegalCfg(r[0].value[MML], r[j].value)
    {
      assert LegalCfg(b[0].value[MML], b[j].value);
      if j == i && b[j].kind.PmpCfg? && !t.op.Read? {
        FixMakesLegalCfg(b[0].value[MML], Merge(t.op, b[j].value, t.wdata, LockMask(b, j)));
      }
    }
  }

  lemma FixMakesLegalCfg(mml: bool, cfg: Csr)
    ensures LegalCfg(mml, FixReserved(mml, cfg))
  {
    hide LegalByte, FixReserved;
    FixMakesLegal(mml, cfg, 0);
    FixMakesLegal(mml, cfg, 1);
    FixMakesLegal(mml, cfg, 2);
    FixMakesLegal(mml, cfg, 3);
  }

  // ---------------------------------------------------------------------------------------------
  // Locked stays locked

  /** Region n's configuration byte within its pmpcfg register. */
  function ByteOf(n: nat): Byte {
    n % 4
  }

  /** Region n is implemented, its L bit is set and rule locking bypass is off. */
  predicate Locked(p: Params, b: Bank, n: nat)
    requires n < 16
  {
    KindOf(p, 2 + n / 4).PmpCfg? && LockedByte(b[2 + n / 4].value, ByteOf(n)) && !b[0].value[RLB]
  }

  /** The region's byte and address read as before, and bypass is still off. */
  predicate Frozen(b: Bank, r: Bank, n: nat)
    requires n < 16
  {
    && SameByte(r[2 + n / 4].value, b[2 + n / 4].value, ByteOf(n))
    && r[6 + n].value == b[6 + n].value
    && !r[0].value[RLB]
  }

  lemma MergeAllLocked(op: Operation, value: Csr, wdata: Csr, lock: Csr)
    requires forall i :: 0 <= i < 32 ==> lock[i]
    ensures Merge(op, value, wdata, lock) == value
  {
  }

  /** mseccfg cannot gain RLB while some region is locked. */
  lemma BypassStaysOff(p: Params, b: Bank, t: Transaction, n: nat)
    requires Layout(p, b) && n < 16 && Locked(p, b, n)
    ensures !Apply(b, t)[0].value[RLB]
  {
    hide FixReserved, Index;
    assert AnyLocked(b) by {
      assert AnyLockBit(Cfg(b, n / 4));
    }
    hide AnyLocked;
  }

  lemma LockedCfgKept(p: Params, b: Bank, t: Transaction, n: nat)
    requires Inv(p, b) && n < 16 && Locked(p, b, n)
    ensures SameByte(Apply(b, t)[2 + n / 4].value, b[2 + n / 4].value, ByteOf(n))
  {
    hide FixReserved, Merge, CfgLock;
    var i := 2 + n / 4;
    assert LegalCfg(b[0].value[MML], b[i].value);
    LockedByteKept(b[0].value[MML], t.op, b[i].value, t.wdata, ByteOf(n));
  }

  /** A region's own L bit, or a following top-of-range region, locks its address. */
  lemma LockedAddrKept(p: Params, b: Bank, t: Transaction, n: nat)
    requires Layout(p, b) && n < 16 && AddrLocked(b, n)
    ensures Apply(b, t)[6 + n].value == b[6 + n].value
  {
    hide FixReserved, Merge, AddrLocked, AnyLocked;
    if Index(t.addr) == 6 + n && b[6 + n].kind.PmpAddr? {
      var lock := LockMask(b, 6 + n);
      assert (6 + n) - 6 == n;
      assert forall l :: 0 <= l < 32 ==> lock[l];
      MergeAllLocked(t.op, b[6 + n].value, t.wdata, lock);
    }
  }

  lemma LockedStep(p: Params, b: Bank, t: Transaction, n: nat)
    requires Inv(p, b) && n < 16 && Locked(p, b, n)
    ensures Frozen(b, Apply(b, t), n) && Locked(p, Apply(b, t), n)
  {
    hide Apply, AnyLocked;
    BypassStaysOff(p, b, t, n);
    LockedCfgKept(p, b, t, n);
    LockedAddrKept(p, b, t, n);
    SameByteLegal(false, Apply(b, t)[2 + n / 4].value, b[2 + n / 4].value, ByteOf(n));
  }

  lemma {:induction false} InvAlong(p: Params, b: Bank, ts: seq<Transaction>)
    requires Inv(p, b)
    ensures Inv(p, Play(b, ts))
    decreases |ts|
  {
    hide Inv, Apply;
    if ts != [] {
      ApplyKeepsInv(p, b, ts[0]);
      InvAlong(p, Apply(b, ts[0]), ts[1..]);
    }
  }

  lemma {:induction false} LockedAlong(p: Params, b: Bank, ts: seq<Transaction>, n: nat)
    requires Inv(p, b) && n < 16 && Locked(p, b, n)
    ensures Frozen(b, Play(b, ts), n) && Locked(p, Play(b, ts), n)
    decreases |ts|
  {
    hide Inv, Apply, LockedByte;
    if ts != [] {
      var m := Apply(b, ts[0]);
      ApplyKeepsInv(p, b, ts[0]);
      LockedStep(p, b, ts[0], n);
      LockedAlong(p, m, ts[1..], n);
    }
  }

  /**
   * From any state reached from reset in which a region is locked with RLB clear, every further
   * sequence of reads, writes, sets and clears leaves RLB clear and the region's configuration
   * byte and address register as they were.
   */
  lemma LockedStaysLocked(p: Params, history: seq<Transaction>, n: nat, later: seq<Transaction>)
    requires n < 16 && Locked(p, Play(Cleared(p), history), n)
    ensures Frozen(Play(Cleared(p), history), Play(Play(Cleared(p), history), later), n)
  {
    hide *;
    ClearedInv(p);
    InvAlong(p, Cleared(p), history);
    LockedAlong(p, Play(Cleared(p), history), later, n);
  }

  /** A locked top-of-range region also freezes the address below it, its lower bound. */
  lemma {:induction false} LowerBoundStays(p: Params, b: Bank, later: seq<Transaction>, n: nat)
    requires Inv(p, b) && 1 <= n < 16 && Locked(p, b, n) && TorByte(b[2 + n / 4].value, ByteOf(n))
    ensures Play(b, later)[5 + n].value == b[5 + n].value
    decreases |later|
  {
    hide Inv, Apply, LockedByte, AnyLocked;
    if later != [] {
      var t, m := later[0], Apply(b, later[0]);
      ApplyKeepsInv(p, b, t);
      LockedStep(p, b, t, n);
      assert AddrLocked(b, n - 1) by {
        NextIsTor(p, b, n);
      }
      InvLayout(p, b);
      LockedAddrKept(p, b, t, n - 1);
      SameByteLegal(false, m[2 + n / 4].value, b[2 + n / 4].value, ByteOf(n));
      LowerBoundStays(p, m, later[1..], n);
    }
  }

  lemma InvLayout(p: Params, b: Bank)
    requires Inv(p, b)
    ensures Layout(p, b)
  {
  }

  lemma NextIsTor(p: Params, b: Bank, n: nat)
    requires Inv(p, b) && 1 <= n < 16 && TorByte(b[2 + n / 4].value, ByteOf(n)) && KindOf(p, 2 + n / 4).PmpCfg?
    ensures AddrLocked(b, n - 1)
  {
  }

  // ---------------------------------------------------------------------------------------------
  // What a write achieves

  /** What the CSR instructions make of a bit: CSRRW replaces it, CSRRS raises it, CSRRC lowers it. */
  predicate CsrBit(op: Operation, stored: bool, w: bool) {
    if op.Write? then w else (stored || (op.Set? && w)) && !(op.Clear? && w)
  }

  function CsrWord(op: Operation, value: Csr, wdata: Csr): Csr {
    seq(32, k requires 0 <= k < 32 => CsrBit(op, value[k], wdata[k]))
  }

  lemma UnlockedIsCsr(op: Operation, value: Csr, wdata: Csr)
    ensures Merge(op, value, wdata, Zeros()) == CsrWord(op, value, wdata)
  {
    forall k | 0 <= k < 32
      ensures Merge(op, value, wdata, Zeros())[k] == CsrWord(op, value, wdata)[k]
    {
    }
  }

  /** An operation on an implemented pmpaddr register takes effect exactly when the code's lock rule lets it. */
  lemma AddrWrite(p: Params, b: Bank, n: nat, op: Operation, wdata: Csr)
    requires Layout(p, b) && n < 16 && p.pmpEnable && n < p.numRegions
    ensures Apply(b, Transaction(op, ADDR_ADDR + n, wdata))[6 + n].value ==
            if AddrLocked(b, n) then b[6 + n].value else CsrWord(op, b[6 + n].value, wdata)
  {
    hide FixReserved, AddrLocked, AnyLocked, CsrWord;
    var t := Transaction(op, ADDR_ADDR + n, wdata);
    assert Index(t.addr) == 6 + n;
    assert (6 + n) - 6 == n;
    var lock := LockMask(b, 6 + n);
    assert lock == if AddrLocked(b, n) then Not(Zeros()) else Zeros();
    if AddrLocked(b, n) {
      MergeAllLocked(op, b[6 + n].value, wdata, lock);
    } else {
      UnlockedIsCsr(op, b[6 + n].value, wdata);
    }
    MergeRead(b[6 + n].value, wdata, lock);
  }

  lemma MergeRead(value: Csr, wdata: Csr, lock: Csr)
    ensures Merge(Read, value, wdata, lock) == value
  {
  }

  /** Bit i of region n's configuration byte as it reads: clear where there is no such byte. */
  predicate RegionBit(p: Params, b: Bank, n: nat, i: nat)
    requires i < 8
  {
    p.pmpEnable && n < 16 && n / 4 < p.numRegions / 4 && b[2 + n / 4].value[8 * (n % 4) + i]
  }

  lemma RegionReads(p: Params, b: Bank, n: nat, i: nat)
    requires Layout(p, b) && n <= 16 && i < 8
    ensures Cfg(b, n / 4)[8 * (n % 4) + i] == RegionBit(p, b, n, i)
  {
    if n < 16 {
      assert b[2 + n / 4].kind == KindOf(p, 2 + n / 4);
    }
  }

  /** Registers of regions that are not configured read as zero and take no operation, as does mseccfgh. */
  lemma NotImplemented(p: Params, b: Bank, t: Transaction)
    requires Layout(p, b)
    requires || (0x3B0 <= t.addr < 0x3C0 && !(p.pmpEnable && t.addr - 0x3B0 < p.numRegions))
             || (0x3A0 <= t.addr < 0x3A4 && !(p.pmpEnable && 4 * (t.addr - 0x3A0) + 4 <= p.numRegions))
             || t.addr == 0x757
    ensures Index(t.addr) != -1 && Value(b[Index(t.addr)]) == seq(32, k => false) && Apply(b, t) == b
  {
    var i := Index(t.addr);
    assert b[i].kind == KindOf(p, i);
    assert b[i := b[i]] == b;
  }

  /**
   * Bit by bit, at address 0x3B0 + n: with the own L bit (bit 7 of byte n) clear and the next byte's
   * mode (bits 4 and 3) not 01, a write stores, SET raises and CLEAR lowers; otherwise nothing changes.
   */
  lemma AddrBits(p: Params, b: Bank, n: nat, w: Csr, k: nat)
    requires Layout(p, b) && n < 16 && p.pmpEnable && n < p.numRegions && k < 32
    ensures var v := b[6 + n].value[k];
      var locked := RegionBit(p, b, n, 7) || (RegionBit(p, b, n + 1, 3) && !RegionBit(p, b, n + 1, 4));
      && Apply(b, Transaction(Write, 0x3B0 + n, w))[6 + n].value[k] == (if locked then v else w[k])
      && Apply(b, Transaction(Set, 0x3B0 + n, w))[6 + n].value[k] == (v || (!locked && w[k]))
      && Apply(b, Transaction(Clear, 0x3B0 + n, w))[6 + n].value[k] == (v && (locked || !w[k]))
      && Apply(b, Transaction(Read, 0x3B0 + n, w))[6 + n].value[k] == v
  {
    hide Apply, Layout, RegionBit;
    RegionReads(p, b, n, 7);
    RegionReads(p, b, n + 1, 3);
    RegionReads(p, b, n + 1, 4);
    AddrWrite(p, b, n, Write, w);
    AddrWrite(p, b, n, Set, w);
    AddrWrite(p, b, n, Clear, w);
    AddrWrite(p, b, n, Read, w);
  }

  // ---------------------------------------------------------------------------------------------
  // The standard's rule for address registers

  /**
   * Section 3.7.1 of the RISC-V Privileged ISA with Smepmp: an address register is locked by its
   * own region's L bit or by a following top-of-range region that is itself locked, and RLB lifts
   * both.
   */
  predicate SpecLocked(b: Bank, n: nat)
    requires n < 16
  {
    var next := Cfg(b, (n + 1) / 4);
    && !b[0].value[RLB]
    && (LockedByte(Cfg(b, n / 4), n % 4) || (LockedByte(next, (n + 1) % 4) && TorByte(next, (n + 1) % 4)))
  }

  /** What the standard makes of an operation on region n's address register. */
  function SpecAddr(b: Bank, n: nat, op: Operation, wdata: Csr): Csr
    requires n < 16
  {
    if SpecLocked(b, n) then b[6 + n].value else CsrWord(op, b[6 + n].value, wdata)
  }

  /** The code locks more than the standard: everything while RLB is set, and below an unlocked top-of-range region. */
  lemma LocksMore(b: Bank, n: nat)
    requires n < 16
    ensures SpecLocked(b, n) ==> AddrLocked(b, n)
    ensures AddrLocked(b, n) && !SpecLocked(b, n) <==>
            var next := Cfg(b, (n + 1) / 4);
            if b[0].value[RLB] then LockedByte(Cfg(b, n / 4), n % 4) || TorByte(next, (n + 1) % 4)
            else !LockedByte(Cfg(b, n / 4), n % 4) && TorByte(next, (n + 1) % 4) && !LockedByte(next, (n + 1) % 4)
  {
  }

  /** An operation ends as the standard says exactly when the lock rules agree or it would change nothing anyway. */
  lemma AddrAgrees(p: Params, b: Bank, n: nat, op: Operation, wdata: Csr)
    requires Layout(p, b) && n < 16 && p.pmpEnable && n < p.numRegions
    ensures Apply(b, Transaction(op, ADDR_ADDR + n, wdata))[6 + n].value == SpecAddr(b, n, op, wdata) <==>
            (AddrLocked(b, n) ==> SpecLocked(b, n)) || CsrWord(op, b[6 + n].value, wdata) == b[6 + n].value
  {
    hide Apply, AddrLocked, SpecLocked, CsrWord;
    AddrWrite(p, b, n, op, wdata);
    LocksMore(b, n);
  }

  // ---------------------------------------------------------------------------------------------
  // Reachable states in which the rules differ

  /** A word with exactly bit i set. */
  function OneBit(i: nat): Csr {
    seq(32, k => k == i)
  }

  const ADDR_WRITE := Transaction(Write, ADDR_ADDR, OneBit(0))

  /** Region 1 becomes an unlocked top-of-range region. */
  const TOR_ABOVE := Transaction(Write, CFG_ADDR, OneBit(11))

  /** Rule locking bypass on, then region 0 locked. */
  const BYPASS := Transaction(Write, MSECCFG_ADDR, OneBit(RLB))
  const LOCK_ZERO := Transaction(Write, CFG_ADDR, OneBit(7))

  /** The code drops a write that the standard performs. */
  predicate Refuses(b: Bank) {
    AddrLocked(b, 0) && !SpecLocked(b, 0)
    && Apply(b, ADDR_WRITE)[6].value == Zeros() && SpecAddr(b, 0, Write, OneBit(0)) == OneBit(0)
  }

  lemma LockRefuses(p: Params, b: Bank)
    requires Layout(p, b) && KindOf(p, 6).PmpAddr? && b[6].value == Zeros()
    requires AddrLocked(b, 0) && !SpecLocked(b, 0)
    ensures Refuses(b)
  {
    hide Apply, AddrLocked, SpecLocked, CsrWord, Zeros, OneBit;
    AddrWrite(p, b, 0, Write, OneBit(0));
    WordWritten(Zeros(), OneBit(0));
  }

  /** From reset, below an unlocked top-of-range region, with RLB clear. */
  lemma DiffersBelowTor(p: Params)
    requires p.pmpEnable && p.numRegions >= 4
    ensures Refuses(Play(Cleared(p), [TOR_ABOVE])) && !Play(Cleared(p), [TOR_ABOVE])[0].value[RLB]
  {
    hide Apply, Inv, Refuses;
    var b := Apply(Cleared(p), TOR_ABOVE);
    assert [TOR_ABOVE][1..] == [];
    ClearedInv(p);
    CfgAfterReset(p, Cleared(p), 1, 11);
    LockRefuses(p, b);
  }

  /** From reset, with bypass on and the region itself locked. */
  lemma DiffersUnderBypass(p: Params)
    requires p.pmpEnable && p.numRegions >= 4
    ensures var b := Play(Cleared(p), [BYPASS, LOCK_ZERO]);
      Refuses(b) && b[0].value[RLB] && LockedByte(Cfg(b, 0), 0)
  {
    hide Apply, Inv, Refuses;
    var c := Apply(Cleared(p), BYPASS);
    var b := Apply(c, LOCK_ZERO);
    assert [BYPASS, LOCK_ZERO][1..] == [LOCK_ZERO] && [LOCK_ZERO][1..] == [];
    assert Play(c, [LOCK_ZERO]) == b;
    BypassFromReset(p);
    CfgAfterReset(p, c, 0, 7);
    LockRefuses(p, b);
  }

  lemma WordWritten(value: Csr, wdata: Csr)
    ensures CsrWord(Write, value, wdata) == wdata
  {
  }

  lemma WriteAll(value: Csr, wdata: Csr)
    ensures Merge(Write, value, wdata, Zeros()) == wdata
  {
  }

  lemma BypassFromReset(p: Params)
    ensures var c := Apply(Cleared(p), BYPASS);
      && Inv(p, c) && c[0].value[RLB] && !c[0].value[MML]
      && forall i :: 1 <= i < 22 ==> c[i] == Cleared(p)[i]
  {
    ClearedInv(p);
    ApplyKeepsInv(p, Cleared(p), BYPASS);
    MseccfgWrite(p, Cleared(p), Write, OneBit(RLB));
    SomeRegionLocked(p, Cleared(p));
    NothingLocked(p);
  }

  lemma NothingLocked(p: Params)
    ensures !AnyLocked(Cleared(p))
  {
    forall j | 0 <= j < 4
      ensures !AnyLockBit(Cfg(Cleared(p), j))
    {
    }
  }

  /** Setting just the mode bit or the L bit of byte k is stored as it is. */
  lemma OneBitLegal(mml: bool, k: Byte, i: nat)
    requires i == 8 * k + 3 || i == 8 * k + 7
    ensures FixReserved(mml, OneBit(i)) == OneBit(i)
  {
    hide FixReserved;
    forall l | 0 <= l < 32
      ensures FixReserved(mml, OneBit(i))[l] == OneBit(i)[l]
    {
      FixReservedAt(mml, OneBit(i), l / 8, l);
    }
  }

  lemma CfgAfterReset(p: Params, b: Bank, k: Byte, i: nat)
    requires Inv(p, b) && b[2].kind.PmpCfg? && b[2].value == Zeros() && (i == 8 * k + 3 || i == 8 * k + 7)
    ensures var r := Apply(b, Transaction(Write, CFG_ADDR, OneBit(i)));
      && Layout(p, r) && r[0] == b[0] && r[6] == b[6] && Cfg(r, 0) == OneBit(i)
  {
    hide FixReserved, Merge, CfgLock, AnyLocked, OneBit, Zeros;
    CfgStored(p, b, 0, Write, OneBit(i));
    NoLocks(b[0].value[RLB]);
    WriteAll(Zeros(), OneBit(i));
    OneBitLegal(b[0].value[MML], k, i);
  }

  lemma NoLocks(bypass: bool)
    ensures CfgLock(bypass, Zeros()) == Zeros()
  {
  }

  // ---------------------------------------------------------------------------------------------
  // mseccfg and pmpcfg

  /**
   * An operation on mseccfg, at address 0x747: RLB (bit 2) stays clear once any region has its L bit
   * set, MMWP (bit 1) and MML (bit 0) only rise, and the rest does not change.
   */
  lemma MseccfgWrite(p: Params, b: Bank, op: Operation, w: Csr)
    requires Layout(p, b)
    ensures var r, v := Apply(b, Transaction(op, 0x747, w))[0].value, b[0].value;
      && r[2] == (CsrBit(op, v[2], w[2]) && (v[2] || !exists n :: 0 <= n < 16 && RegionBit(p, b, n, 7)))
      && r[1] == (v[1] || CsrBit(op, v[1], w[1])) && r[0] == (v[0] || CsrBit(op, v[0], w[0]))
      && forall i :: 3 <= i < 32 ==> r[i] == v[i]
  {
    hide AnyLocked, FixReserved, RegionBit;
    SomeRegionLocked(p, b);
  }

  /** Some L bit is set: some region is locked. */
  lemma SomeRegionLocked(p: Params, b: Bank)
    requires Layout(p, b)
    ensures AnyLocked(b) <==> exists n :: 0 <= n < 16 && RegionBit(p, b, n, 7)
  {
    hide Layout, RegionBit;
    if AnyLocked(b) {
      var j :| 0 <= j < 4 && AnyLockBit(Cfg(b, j));
      var k: Byte := if LockedByte(Cfg(b, j), 0) then 0 else if LockedByte(Cfg(b, j), 1) then 1
                     else if LockedByte(Cfg(b, j), 2) then 2 else 3;
      var n := 4 * j + k;
      assert n / 4 == j && n % 4 == k;
      RegionReads(p, b, n, 7);
      assert RegionBit(p, b, n, 7);
    }
    if n :| 0 <= n < 16 && RegionBit(p, b, n, 7) {
      RegionReads(p, b, n, 7);
      assert LockedByte(Cfg(b, n / 4), n % 4);
      assert AnyLockBit(Cfg(b, n / 4));
    }
  }

  /** The byte an operation leaves in a pmpcfg register unless it is locked: the legalised new one. */
  predicate Legalised(mml: bool, new_: Csr, wanted: Csr, k: Byte) {
    forall i :: 8 * k <= i < 8 * k + 8 ==>
      new_[i] == (wanted[i] && i != 8 * k + 5 && i != 8 * k + 6
                  && !(!mml && wanted[8 * k + 1] && !wanted[8 * k] && i <= 8 * k + 1))
  }

  /**
   * An operation on a pmpcfg register, at address 0x3A0 + j: a byte whose L bit is set keeps its value
   * while RLB is clear; any other becomes what the operation asks for, legalised.
   */
  lemma CfgWrite(p: Params, b: Bank, j: nat, op: Operation, w: Csr, k: Byte)
    requires Inv(p, b) && j < 4 && p.pmpEnable && 4 * j + 4 <= p.numRegions
    ensures var r, v := Apply(b, Transaction(op, 0x3A0 + j, w))[2 + j].value, b[2 + j].value;
      if v[8 * k + 7] && !b[0].value[2] then SameByte(r, v, k)
      else Legalised(b[0].value[0], r, CsrWord(op, v, w), k)
  {
    hide FixReserved, Merge, CfgLock, LegalByte, Legalised, Inv, Apply, SameByte, CsrWord;
    InvLayout(p, b);
    CfgsLegal(p, b, j, k);
    CfgStored(p, b, j, op, w);
    if op.Read? {
      LegalUnchanged(b[0].value[MML], b[2 + j].value, w, k);
    } else {
      CfgWriteByte(b[0].value[MML], b[0].value[RLB], b[2 + j].value, op, w, k);
    }
  }

  /** A legal byte is its own legalisation. */
  lemma LegalUnchanged(mml: bool, value: Csr, w: Csr, k: Byte)
    requires LegalByte(mml, value, k)
    ensures SameByte(value, value, k) && Legalised(mml, value, CsrWord(Read, value, w), k)
  {
  }

  lemma CfgsLegal(p: Params, b: Bank, j: nat, k: Byte)
    requires Inv(p, b) && j < 4
    ensures LegalByte(b[0].value[MML], b[2 + j].value, k)
  {
    hide LegalByte;
    assert LegalCfg(b[0].value[MML], b[2 + j].value);
  }

  lemma CfgStored(p: Params, b: Bank, j: nat, op: Operation, wdata: Csr)
    requires Layout(p, b) && j < 4 && KindOf(p, 2 + j).PmpCfg?
    ensures Apply(b, Transaction(op, CFG_ADDR + j, wdata))[2 + j].value ==
            if op.Read? then b[2 + j].value else
              FixReserved(b[0].value[MML], Merge(op, b[2 + j].value, wdata, CfgLock(b[0].value[RLB], b[2 + j].value)))
  {
    hide FixReserved, Merge, CfgLock, AnyLocked;
  }

  lemma CfgWriteByte(mml: bool, bypass: bool, value: Csr, op: Operation, wdata: Csr, k: Byte)
    requires LegalByte(mml, value, k)
    ensures var r := FixReserved(mml, Merge(op, value, wdata, CfgLock(bypass, value)));
      if LockedByte(value, k) && !bypass then SameByte(r, value, k)
      else Legalised(mml, r, CsrWord(op, value, wdata), k)
  {
    hide FixReserved;
    if LockedByte(value, k) && !bypass {
      LockedByteKept(mml, op, value, wdata, k);
    } else {
      var merged, wanted := Merge(op, value, wdata, CfgLock(bypass, value)), CsrWord(op, value, wdata);
      UnlockedByte(bypass, value, op, wdata, k);
      forall i | 8 * k <= i < 8 * k + 8
        ensures FixReserved(mml, merged)[i] ==
                (wanted[i] && i != 8 * k + 5 && i != 8 * k + 6
                 && !(!mml && wanted[8 * k + 1] && !wanted[8 * k] && i <= 8 * k + 1))
      {
        FixReservedAt(mml, merged, k, i);
      }
    }
  }

  lemma UnlockedByte(bypass: bool, value: Csr, op: Operation, wdata: Csr, k: Byte)
    requires bypass || !LockedByte(value, k)
    ensures SameByte(Merge(op, value, wdata, CfgLock(bypass, value)), CsrWord(op, value, wdata), k)
  {
    forall i | 8 * k <= i < 8 * k + 8
      ensures Merge(op, value, wdata, CfgLock(bypass, value))[i] == CsrWord(op, value, wdata)[i]
    {
      assert i / 8 == k;
    }
  }
}
