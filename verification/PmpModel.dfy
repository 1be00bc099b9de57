/**
 * The register model as it runs: registers are found by scanning the map, lock masks are
 * accumulated in local variables, and every operation is proved against the bank's specification.
 */
module PmpModel {
  import opened Bits
  import opened PmpRegisters

  /** A word with only bit n set. */
  function Single(n: nat): Csr {
    seq(32, i => i == n)
  }

  /** 0xFFFFFFF8 */
  function UpperBits(): Csr {
    seq(32, i => i >= 3)
  }

  /** addr & 0xfffffffc == 0x3A0 */
  predicate MatchesCfg(addr: nat) {
    addr - addr % 4 == CFG_ADDR
  }

  lemma AddrsDiffer(i: nat, j: nat)
    requires i < j < 22
    ensures AddrOf(i) != AddrOf(j)
  {
  }

  lemma CfgPlaces(i: nat)
    requires i < 22
    ensures MatchesCfg(AddrOf(i)) <==> 2 <= i < 6
  {
  }

  /** Repairs bytes upwards, each from the value the previous step left. */
  method HandleReservedVals(mml: bool, cfg: Csr) returns (r: Csr)
    ensures r == FixReserved(mml, cfg)
  {
    r := And(cfg, RazMask());
    if mml {
      return;
    }
    ghost var masked := r;
    for k := 0 to 4
      invariant r == FixBytes(masked, k)
    {
      if ReservedByte(r, k) {
        r := And(r, Not(AccessMask(k)));
      }
    }
  }

  /** Accumulates the mask of whole locked bytes. */
  method LockedBytes(value: Csr) returns (lock: Csr)
    ensures lock == CfgLock(false, value)
  {
    lock := Zeros();
    for k := 0 to 4
      invariant forall i :: 0 <= i < 32 ==> lock[i] == (i / 8 < k && LockedByte(value, i / 8))
    {
      if LockedByte(value, k) {
        lock := Or(lock, ByteMask(k));
      }
    }
  }

  /** mseccfg's mask: the upper bits, then RLB, MMWP and MML as they stick. */
  method MseccfgMask(value: Csr, anyLocked: bool) returns (lock: Csr)
    ensures lock == MseccfgLock(value, anyLocked)
  {
    lock := UpperBits();
    if anyLocked && !value[RLB] {
      lock := Or(lock, Single(RLB));
    }
    if value[MMWP] {
      lock := Or(lock, Single(MMWP));
    }
    if value[MML] {
      lock := Or(lock, Single(MML));
    }
    assert lock == MseccfgLock(value, anyLocked);
  }

  /** The masked read-modify-write of one register. */
  method Modify(op: Operation, value: Csr, wdata: Csr, lock: Csr) returns (v: Csr)
    ensures v == Merge(op, value, wdata, lock)
  {
    v := value;
    match op {
      case Read =>
      case Write =>
        v := And(v, lock);
        v := Or(v, And(wdata, Not(lock)));
      case Set =>
        v := Or(v, And(wdata, Not(lock)));
      case Clear =>
        v := And(v, Or(Not(wdata), lock));
    }
    assert v == Merge(op, value, wdata, lock);
  }

  class RegisterModel {
    const params: Params
    var registers: seq<Register>

    ghost predicate Valid()
      reads this
    {
      |registers| == 22 && Layout(params, registers)
    }

    constructor (p: Params)
      ensures params == p && Valid() && registers == Cleared(p)
    {
      params := p;
      new;
      registers := [Register(Mseccfg, MSECCFG_ADDR, Zeros()), Register(NonImp, MSECCFGH_ADDR, Zeros())];
      for i := 0 to 4
        invariant |registers| == 2 + i
        invariant params == p
        invariant forall k :: 0 <= k < |registers| ==> registers[k] == Cleared(p)[k]
      {
        var kind := if p.pmpEnable && i < p.numRegions / 4 then PmpCfg else NonImp;
        registers := registers + [Register(kind, CFG_ADDR + i, Zeros())];
      }
      for i := 0 to 16
        invariant |registers| == 6 + i
        invariant params == p
        invariant forall k :: 0 <= k < |registers| ==> registers[k] == Cleared(p)[k]
      {
        var kind := if p.pmpEnable && i < p.numRegions then PmpAddr else NonImp;
        registers := registers + [Register(kind, ADDR_ADDR + i, Zeros())];
      }
      assert registers == Cleared(p);
    }

    method AnyPmpCfgsLocked() returns (any: bool)
      requires Valid()
      ensures any == AnyLocked(registers)
    {
      for i := 0 to |registers|
        invariant forall k :: 2 <= k < i && k < 6 ==> !AnyLockBit(Value(registers[k]))
      {
        CfgPlaces(i);
        if MatchesCfg(registers[i].addr) {
          if AnyLockBit(Value(registers[i])) {
            assert AnyLockBit(Cfg(registers, i - 2));
            return true;
          }
        }
      }
      assert forall j :: 0 <= j < 4 ==> Cfg(registers, j) == Value(registers[2 + j]);
      return false;
    }

    /** pmpaddr's mask, from the configuration bytes of its own and the next region. */
    method AddrMask(region: nat) returns (lock: Csr)
      requires Valid() && region < 16
      ensures lock == AddrLock(registers, region)
    {
      var cfgAddr, nextAddr := CFG_ADDR + region / 4, CFG_ADDR + (region + 1) / 4;
      var cfg, next := Zeros(), Zeros();
      for i := 0 to |registers|
        invariant cfg == if i <= 2 + region / 4 then Zeros() else Cfg(registers, region / 4)
        invariant next == if i <= 2 + (region + 1) / 4 then Zeros() else Cfg(registers, (region + 1) / 4)
      {
        if registers[i].addr == cfgAddr {
          cfg := Value(registers[i]);
        }
        if registers[i].addr == nextAddr {
          next := Value(registers[i]);
        }
      }
      if LockedByte(cfg, region % 4) || TorByte(next, (region + 1) % 4) {
        lock := Not(Zeros());
      } else {
        lock := Zeros();
      }
    }

    method GetLockMask(i: nat) returns (lock: Csr)
      requires Valid() && i < 22
      ensures lock == LockMask(registers, i)
    {
      match registers[i].kind {
        case Mseccfg =>
          var any := AnyPmpCfgsLocked();
          lock := MseccfgMask(registers[i].value, any);
        case PmpCfg =>
          lock := Zeros();
          if !registers[0].value[RLB] {
            lock := LockedBytes(registers[i].value);
          }
        case PmpAddr =>
          assert 6 <= i && registers[i].addr % 16 == i - 6;
          lock := AddrMask(registers[i].addr % 16);
        case NonImp =>
          lock := Zeros();
      }
    }

    /** One register performs the operation on itself. */
    method Perform(i: nat, op: Operation, wdata: Csr) returns (readValue: Csr)
      requires Valid() && i < 22
      modifies this`registers
      ensures Valid() && readValue == Value(old(registers)[i])
      ensures registers == old(registers)[i := old(registers)[i].(value := NewValue(old(registers), i, op, wdata))]
    {
      hide LockMask, Merge, FixReserved;
      readValue := Value(registers[i]);
      if registers[i].kind.NonImp? || op.Read? {
        return;
      }
      var lock := GetLockMask(i);
      var v := Modify(op, registers[i].value, wdata, lock);
      if registers[i].kind.PmpCfg? {
        v := HandleReservedVals(registers[0].value[MML], v);
      }
      registers := registers[i := registers[i].(value := v)];
    }

    /** Every register whose address matches takes the transaction; stop reports a mismatch with the design. */
    method NewTransaction(t: Transaction, rdata: Csr, illegalCsr: bool) returns (stop: bool)
      requires Valid()
      modifies this`registers
      ensures Valid() && registers == Apply(old(registers), t)
      ensures var i := Index(t.addr);
        stop == if i == -1 then !illegalCsr else Value(old(registers)[i]) != rdata
    {
      var matched := false;
      stop := false;
      ghost var place := Index(t.addr);
      for i := 0 to 22
        invariant Valid()
        invariant registers == if 0 <= place < i then Apply(old(registers), t) else old(registers)
        invariant matched == (0 <= place < i)
        invariant stop == (matched && Value(old(registers)[place]) != rdata)
      {
        if registers[i].addr == t.addr {
          matched := true;
          if 0 <= place < i {
            AddrsDiffer(place, i);
          } else if i < place {
            AddrsDiffer(i, place);
          }
          var readValue := Perform(i, t.op, t.wdata);
          if readValue != rdata {
            stop := true;
          }
        }
      }
      if !matched && !illegalCsr {
        stop := true;
      }
    }

    method RegisterReset()
      requires Valid()
      modifies this`registers
      ensures Valid() && registers == Cleared(params)
    {
      for i := 0 to 22
        invariant Valid()
        invariant forall k :: 0 <= k < i ==> registers[k].value == Zeros()
      {
        registers := registers[i := registers[i].(value := Zeros())];
      }
      assert forall k :: 0 <= k < 22 ==> registers[k] == Cleared(params)[k];
    }
  }
}
