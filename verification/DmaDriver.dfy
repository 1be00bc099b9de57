/**
 * The accelerator's Linux driver, called by one process at a time: the life of its four DMA
 * buffers over probe, ioctls and remove, with allocation failing at any point.
 */
module DmaDriver {
  import opened BvBits
  import opened Options

  const RANGE := 0x1_0000_0000

  type U32 = n: int | 0 <= n < RANGE

  type Byte = b: int | 0 <= b < 256

  const BUF_SIZE := 4096
  const S2MM := 3

  const EFAULT := -14
  const ENOMEM := -12
  const ENODEV := -19
  const EINVAL := -22
  const ETIMEDOUT := -110

  /** A range of bus addresses. */
  datatype Window = Window(start: nat, size: nat) {
    predicate Inside(outer: Window) {
      outer.start <= start && start + size <= outer.start + outer.size
    }

    predicate Apart(other: Window) {
      start + size <= other.start || other.start + other.size <= start
    }
  }

  /** virt names the kernel's block while it is held; NULL is None. */
  datatype Buffer = Buffer(virt: Option<nat>, dma: nat, size: nat)

  const NO_BUFFER := Buffer(None, 0, 0)

  datatype Transfer = Transfer(channel: U32, offset: U32, numBytes: U32)

  datatype RunConfig = RunConfig(mm2s0: U32, mm2s1: U32, mm2s2: U32, s2mm: U32, timeout: U32)

  // register indices
  const A_START := 0x0
  const A_MM2S_0_ADDR := 0x2
  const A_MM2S_0_BYTES := 0x3
  const A_MM2S_1_ADDR := 0x6
  const A_MM2S_1_BYTES := 0x7
  const A_MM2S_2_ADDR := 0xA
  const A_MM2S_2_BYTES := 0xB
  const A_S2MM_ADDR := 0xE
  const A_S2MM_BYTES := 0xF

  const SA_MAX_REG_INDEX := 0xF

  type Registers = r: seq<U32> | |r| == 16 witness seq(16, i => 0)

  const RESET_REGISTERS: Registers := [0, 0, 0, 0, 0, 0, 0, 0, 0, 0, 0, 0, 0, 0, 0, 0]

  /** The address and byte count of every channel. */
  function Windows(r: Registers): seq<Window> {
    [Window(r[A_MM2S_0_ADDR], r[A_MM2S_0_BYTES]), Window(r[A_MM2S_1_ADDR], r[A_MM2S_1_BYTES]),
     Window(r[A_MM2S_2_ADDR], r[A_MM2S_2_BYTES]), Window(r[A_S2MM_ADDR], r[A_S2MM_BYTES])]
  }

  const DEFAULT_TIMEOUT: U32 := 1000000

  /** How often a run polls for completion. */
  function Polls(cfg: RunConfig): U32 {
    if cfg.timeout != 0 then cfg.timeout else DEFAULT_TIMEOUT
  }

  /** Every byte count of the run fits its buffer. */
  predicate Fits(cfg: RunConfig) {
    cfg.mm2s0 <= BUF_SIZE && cfg.mm2s1 <= BUF_SIZE && cfg.mm2s2 <= BUF_SIZE && cfg.s2mm <= BUF_SIZE
  }

  /** A start of the hardware: the windows in its registers, and the driver's live blocks at that moment. */
  datatype Launch = Launch(windows: seq<Window>, blocks: seq<Window>)

  /** Every channel works inside its own block. */
  predicate Contained(l: Launch) {
    |l.windows| == |l.blocks| == 4 && forall k :: 0 <= k < 4 ==> l.windows[k].Inside(l.blocks[k])
  }

  // ---------------------------------------------------------------------------------------------
  // Checks

  /** Subtraction instead of addition: no sum of 32-bit numbers is formed. */
  function CheckRange(buf: Option<Buffer>, offset: U32, numBytes: U32): int {
    if buf.None? || buf.value.virt.None? then EINVAL
    else if offset > buf.value.size then EINVAL
    else if numBytes > buf.value.size - offset then EINVAL
    else 0
  }

  /** The check passes exactly when the copied bytes lie inside a live buffer. */
  lemma CheckRangeExact(buf: Option<Buffer>, offset: U32, numBytes: U32)
    ensures CheckRange(buf, offset, numBytes) == 0 <==>
            buf.Some? && buf.value.virt.Some? && Window(offset, numBytes).Inside(Window(0, buf.value.size))
  {
  }

  /** The four done registers as one poll reads them. */
  datatype Poll = Poll(mm2s0: bv32, mm2s1: bv32, mm2s2: bv32, s2mm: bv32) {
    predicate HasBit(b: Index) {
      Bit(mm2s0, b) && Bit(mm2s1, b) && Bit(mm2s2, b) && Bit(s2mm, b)
    }

    /** Some bit is up in all four done registers. */
    ghost predicate AllDone() {
      exists b: Index :: HasBit(b)
    }
  }

  function DoneStatus(p: Poll): (status: bv32) {
    p.mm2s0 & p.mm2s1 & p.mm2s2 & p.s2mm
  }

  lemma DoneBit(p: Poll, b: Index)
    ensures Bit(DoneStatus(p), b) <==> p.HasBit(b)
  {
    hide Bit;
    FourBits(p.mm2s0, p.mm2s1, p.mm2s2, p.s2mm, b);
  }

  lemma FourBits(w: bv32, x: bv32, y: bv32, z: bv32, b: Index)
    ensures Bit(w & x & y & z, b) <==> Bit(w, b) && Bit(x, b) && Bit(y, b) && Bit(z, b)
  {
  }

  /** The status is nonzero exactly when some bit is up in all four registers. */
  lemma StatusMeansDone(p: Poll)
    ensures DoneStatus(p) != 0 <==> p.AllDone()
  {
    hide Bit, DoneStatus;
    if DoneStatus(p) != 0 {
      var b := Difference(DoneStatus(p), 0);
      NoBits(b);
      DoneBit(p, b);
      assert p.HasBit(b);
    } else if p.AllDone() {
      var b: Index :| p.HasBit(b);
      DoneBit(p, b);
      NoBits(b);
      assert false;
    }
  }

  /** With done registers that read 0 or 1 the status is 1 exactly when all four are up, and 0 otherwise. */
  lemma OneBitStatus(p: Poll)
    requires p.mm2s0 <= 1 && p.mm2s1 <= 1 && p.mm2s2 <= 1 && p.s2mm <= 1
    ensures DoneStatus(p) == if p == Poll(1, 1, 1, 1) then 1 else 0
  {
  }

  /** Polls until a done bit is up in all four registers, at most timeout times. */
  method WaitDone(polls: seq<Poll>, timeout: U32) returns (ret: int)
    requires |polls| >= timeout
    ensures ret == if exists k :: 0 <= k < timeout && polls[k].AllDone() then 0 else ETIMEDOUT
  {
    var left := timeout;
    while left != 0
      invariant 0 <= left <= timeout
      invariant forall k :: 0 <= k < timeout - left ==> !polls[k].AllDone()
    {
      left := left - 1;
      StatusMeansDone(polls[timeout - left - 1]);
      if DoneStatus(polls[timeout - left - 1]) != 0 {
        return 0;
      }
    }
    return ETIMEDOUT;
  }

  // ---------------------------------------------------------------------------------------------
  // Ownership

  /** The kernel's side of coherent DMA memory; block numbers are never reused. */
  datatype Kernel = Kernel(live: map<nat, Window>, memory: map<nat, seq<Byte>>, next: nat, freed: seq<nat>)

  const NO_BLOCKS := Kernel(map[], map[], 0, [])

  type Buffers = b: seq<Buffer> | |b| == 4 witness [NO_BUFFER, NO_BUFFER, NO_BUFFER, NO_BUFFER]

  function Ids(b: Buffer): set<nat> {
    if b.virt.Some? then {b.virt.value} else {}
  }

  function HeldIds(b: Buffers): set<nat> {
    Ids(b[0]) + Ids(b[1]) + Ids(b[2]) + Ids(b[3])
  }

  /** The buffer describes its live block. */
  predicate Backed(b: Buffer, k: Kernel) {
    b.virt.Some? ==>
      && b.virt.value in k.live && k.live[b.virt.value] == Window(b.dma, b.size)
      && b.virt.value in k.memory && |k.memory[b.virt.value]| == b.size
  }

  predicate AllBacked(b: Buffers, k: Kernel) {
    forall i :: 0 <= i < 4 ==> Backed(b[i], k)
  }

  predicate Distinct(b: Buffers) {
    forall i, j :: 0 <= i < j < 4 ==> Ids(b[i]) !! Ids(b[j])
  }

  /** Live blocks are in reach of 32 bits and do not overlap. */
  predicate Placed(k: Kernel) {
    && (forall id :: id in k.live ==> k.live[id].start + k.live[id].size <= RANGE)
    && (forall a, b :: a in k.live && b in k.live && a != b ==> k.live[a].Apart(k.live[b]))
  }

  /** Every block ever allocated is live or was freed, and was freed only once. */
  predicate Counted(k: Kernel) {
    && (forall id :: id in k.live ==> id < k.next && id !in k.freed)
    && (forall id :: 0 <= id < k.next ==> id in k.live || id in k.freed)
    && (forall id :: id in k.freed ==> 0 <= id < k.next)
    && (forall i, j :: 0 <= i < j < |k.freed| ==> k.freed[i] != k.freed[j])
  }

  /** The driver holds exactly the live blocks, each in one buffer. */
  predicate Consistent(b: Buffers, k: Kernel) {
    AllBacked(b, k) && Distinct(b) && k.live.Keys == HeldIds(b) && Placed(k) && Counted(k)
  }

  /** The address is in reach of a 32-bit mask and clear of every live block. */
  predicate Grantable(k: Kernel, addr: nat) {
    addr + BUF_SIZE <= RANGE && forall id :: id in k.live ==> Window(addr, BUF_SIZE).Apart(k.live[id])
  }

  function Allocate(k: Kernel, addr: nat, fill: Byte): Kernel {
    Kernel(k.live[k.next := Window(addr, BUF_SIZE)], k.memory[k.next := seq(BUF_SIZE, i => fill)], k.next + 1, k.freed)
  }

  function Release(k: Kernel, id: nat): Kernel {
    Kernel(k.live - {id}, k.memory, k.next, k.freed + [id])
  }

  lemma AllocateCounts(k: Kernel, addr: nat, fill: Byte)
    requires Counted(k) && Placed(k) && Grantable(k, addr)
    ensures Counted(Allocate(k, addr, fill)) && Placed(Allocate(k, addr, fill))
  {
  }

  lemma ReleaseCounts(k: Kernel, id: nat)
    requires Counted(k) && Placed(k) && id in k.live
    ensures Counted(Release(k, id)) && Placed(Release(k, id))
  {
    assert (k.freed + [id])[|k.freed|] == id;
  }

  lemma AllocateKeeps(b: Buffers, k: Kernel, i: nat, addr: nat, fill: Byte)
    requires Consistent(b, k) && i < 4 && b[i].virt.None? && Grantable(k, addr)
    ensures Consistent(b[i := Buffer(Some(k.next), addr, BUF_SIZE)], Allocate(k, addr, fill))
  {
    hide Counted, Placed, Grantable;
    AllocateCounts(k, addr, fill);
    assert k.next !in k.live by {
      NextIsNew(k);
    }
  }

  lemma NextIsNew(k: Kernel)
    requires Counted(k)
    ensures k.next !in k.live
  {
  }

  lemma ReleaseKeeps(b: Buffers, k: Kernel, i: nat)
    requires Consistent(b, k) && i < 4 && b[i].virt.Some?
    ensures Consistent(b[i := NO_BUFFER], Release(k, b[i].virt.value))
  {
    hide Counted, Placed, HeldIds;
    ReleaseCounts(k, b[i].virt.value);
    var c, r := b[i := NO_BUFFER], Release(k, b[i].virt.value);
    ReleasedIds(b, i);
    assert r.live.Keys == k.live.Keys - {b[i].virt.value};
    forall j | 0 <= j < 4
      ensures Backed(c[j], r)
    {
      assert Backed(b[j], k);
      assert j != i ==> Ids(b[j]) !! Ids(b[i]);
    }
  }

  lemma ReleasedIds(b: Buffers, i: nat)
    requires Distinct(b) && i < 4 && b[i].virt.Some?
    ensures HeldIds(b[i := NO_BUFFER]) == HeldIds(b) - {b[i].virt.value} && Distinct(b[i := NO_BUFFER])
  {
    assert forall j :: 0 <= j < 4 && j != i ==> Ids(b[j]) !! Ids(b[i]);
  }

  /** A buffer without a block can change its other fields freely. */
  lemma ResizeKeeps(b: Buffers, k: Kernel, i: nat, size: nat)
    requires Consistent(b, k) && i < 4 && b[i].virt.None?
    ensures Consistent(b[i := b[i].(size := size)], k)
  {
    hide Counted, Placed;
  }

  type Grants = g: seq<Option<nat>> | |g| == 4 witness [None, None, None, None]

  // ---------------------------------------------------------------------------------------------
  // Contents

  function Patch(mem: seq<Byte>, offset: nat, data: seq<Byte>): seq<Byte>
    requires offset + |data| <= |mem|
  {
    mem[..offset] + data + mem[offset + |data|..]
  }

  /** A copied range reads back, and no other byte of the buffer moves. */
  lemma PatchReadsBack(mem: seq<Byte>, offset: nat, data: seq<Byte>)
    requires offset + |data| <= |mem|
    ensures |Patch(mem, offset, data)| == |mem|
    ensures Patch(mem, offset, data)[offset..offset + |data|] == data
    ensures forall i :: 0 <= i < |mem| && !(offset <= i < offset + |data|) ==> Patch(mem, offset, data)[i] == mem[i]
  {
  }

  function Channel(b: Buffers, channel: U32): Option<Buffer> {
    if channel < 4 then Some(b[channel]) else None
  }

  function WriteBlock(k: Kernel, id: nat, offset: nat, data: seq<Byte>): Kernel
    requires id in k.memory && offset + |data| <= |k.memory[id]|
  {
    k.(memory := k.memory[id := Patch(k.memory[id], offset, data)])
  }

  /** The written range of the block reads back; no other byte, block or ownership changes. */
  lemma WriteReadsBack(k: Kernel, id: nat, offset: nat, data: seq<Byte>)
    requires id in k.memory && offset + |data| <= |k.memory[id]|
    ensures var w := WriteBlock(k, id, offset, data);
      && w.live == k.live && w.next == k.next && w.freed == k.freed && w.memory.Keys == k.memory.Keys
      && (forall other :: other in k.memory && other != id ==> w.memory[other] == k.memory[other])
      && |w.memory[id]| == |k.memory[id]| && w.memory[id][offset..offset + |data|] == data
      && forall i :: 0 <= i < |k.memory[id]| && !(offset <= i < offset + |data|) ==> w.memory[id][i] == k.memory[id][i]
  {
    PatchReadsBack(k.memory[id], offset, data);
    hide Patch;
  }

  lemma WriteKeeps(b: Buffers, k: Kernel, id: nat, offset: nat, data: seq<Byte>)
    requires Consistent(b, k) && id in k.memory && offset + |data| <= |k.memory[id]|
    ensures Consistent(b, WriteBlock(k, id, offset, data))
  {
    PatchReadsBack(k.memory[id], offset, data);
    hide Patch, Distinct;
  }

  /** What dma_alloc_coherent promises for the requests from the i-th on: free, separate addresses. */
  predicate Promised(k: Kernel, grants: Grants, i: nat) {
    && (forall j :: i <= j < 4 && grants[j].Some? ==> Grantable(k, grants[j].value))
    && (forall j, l :: i <= j < l < 4 && grants[j].Some? && grants[l].Some? ==>
          Window(grants[j].value, BUF_SIZE).Apart(Window(grants[l].value, BUF_SIZE)))
  }

  lemma PromiseGrants(k: Kernel, grants: Grants, i: nat)
    requires Promised(k, grants, i) && i < 4
    ensures grants[i].Some? ==> Grantable(k, grants[i].value)
  {
  }

  lemma PromiseStays(k: Kernel, grants: Grants, i: nat, fill: Byte)
    requires Promised(k, grants, i) && i < 4 && grants[i].Some?
    ensures Promised(Allocate(k, grants[i].value, fill), grants, i + 1)
  {
    forall j | i + 1 <= j < 4 && grants[j].Some?
      ensures Grantable(Allocate(k, grants[i].value, fill), grants[j].value)
    {
      assert Grantable(k, grants[j].value);
      assert Window(grants[i].value, BUF_SIZE).Apart(Window(grants[j].value, BUF_SIZE));
    }
  }

  function Blocks(b: Buffers): seq<Window> {
    [Window(b[0].dma, b[0].size), Window(b[1].dma, b[1].size), Window(b[2].dma, b[2].size), Window(b[3].dma, b[3].size)]
  }

  /** The start that a run configuration asks for. */
  function Planned(b: Buffers, cfg: RunConfig): Launch {
    Launch([Window(b[0].dma, cfg.mm2s0), Window(b[1].dma, cfg.mm2s1), Window(b[2].dma, cfg.mm2s2),
            Window(b[3].dma, cfg.s2mm)], Blocks(b))
  }

  /** Every live block ends within 32 bits. */
  lemma DmaFits(b: Buffers, k: Kernel, i: nat)
    requires Consistent(b, k) && i < 4 && b[i].virt.Some?
    ensures b[i].dma + b[i].size <= RANGE
  {
    assert Backed(b[i], k);
  }

  /** The first n buffers are live and full-sized. */
  predicate AllHeld(b: Buffers, n: nat)
    requires n <= 4
  {
    forall k :: 0 <= k < n ==> b[k].virt.Some? && b[k].size == BUF_SIZE
  }

  /** The buffers sit where the allocator put them. */
  predicate Placement(b: Buffers, grants: Grants) {
    forall k :: 0 <= k < 4 ==> grants[k].Some? && b[k].dma == grants[k].value
  }

  /** No buffer from the n-th on is live. */
  predicate NoneHeld(b: Buffers, n: nat) {
    forall k :: n <= k < 4 ==> b[k].virt.None?
  }

  // ---------------------------------------------------------------------------------------------
  // The device

  class Device {
    var bound: bool
    var bufs: Buffers
    var kernel: Kernel
    var regs: Registers
    ghost var launches: seq<Launch>

    /** While bound all four buffers are live; otherwise nothing is. */
    ghost predicate Valid()
      reads this
    {
      && Consistent(bufs, kernel)
      && (if bound then AllHeld(bufs, 4) else NoneHeld(bufs, 0))
    }

    /** Unbound, the driver holds no block. */
    lemma NothingLive()
      requires Valid() && !bound
      ensures kernel.live == map[]
    {
      assert kernel.live.Keys == HeldIds(bufs) == {};
    }

    constructor ()
      ensures Valid() && !bound && kernel == NO_BLOCKS && regs == RESET_REGISTERS && launches == []
    {
      bound, bufs, regs := false, [NO_BUFFER, NO_BUFFER, NO_BUFFER, NO_BUFFER], RESET_REGISTERS;
      kernel, launches := NO_BLOCKS, [];
    }

    /** A failed allocation leaves its size behind but no block. */
    method AllocOne(i: nat, grant: Option<nat>, fill: Byte) returns (ret: int)
      requires Consistent(bufs, kernel) && i < 4 && bufs[i].virt.None?
      requires grant.Some? ==> Grantable(kernel, grant.value)
      modifies this`bufs, this`kernel
      ensures Consistent(bufs, kernel) && ret == if grant.Some? then 0 else ENOMEM
      ensures forall j :: 0 <= j < 4 && j != i ==> bufs[j] == old(bufs)[j]
      ensures if ret == 0 then bufs[i] == Buffer(Some(old(kernel.next)), grant.value, BUF_SIZE) else bufs[i].virt.None?
      ensures kernel == if ret == 0 then Allocate(old(kernel), grant.value, fill) else old(kernel)
    {
      if grant.None? {
        ResizeKeeps(bufs, kernel, i, BUF_SIZE);
        bufs := bufs[i := bufs[i].(size := BUF_SIZE)];
        return ENOMEM;
      }
      AllocateKeeps(bufs, kernel, i, grant.value, fill);
      bufs, kernel := bufs[i := Buffer(Some(kernel.next), grant.value, BUF_SIZE)], Allocate(kernel, grant.value, fill);
      return 0;
    }

    method FreeOne(i: nat)
      requires Consistent(bufs, kernel) && i < 4
      modifies this`bufs, this`kernel
      ensures Consistent(bufs, kernel) && bufs[i].virt.None?
      ensures forall j :: 0 <= j < 4 && j != i ==> bufs[j] == old(bufs)[j]
      ensures kernel == if old(bufs)[i].virt.Some? then Release(old(kernel), old(bufs)[i].virt.value) else old(kernel)
    {
      if bufs[i].virt.None? {
        return;
      }
      ReleaseKeeps(bufs, kernel, i);
      var id := bufs[i].virt.value;
      bufs, kernel := bufs[i := NO_BUFFER], Release(kernel, id);
    }

    /** Allocates the input buffers in order until one fails. */
    method AllocInputs(grants: Grants, fill: Byte) returns (ret: int, i: nat)
      requires Consistent(bufs, kernel) && NoneHeld(bufs, 0) && Promised(kernel, grants, 0)
      modifies this`bufs, this`kernel
      ensures Consistent(bufs, kernel) && i <= 3 && AllHeld(bufs, i) && NoneHeld(bufs, i)
      ensures forall k :: 0 <= k < i ==> grants[k].Some? && bufs[k].dma == grants[k].value
      ensures if ret == 0 then i == 3 && Promised(kernel, grants, 3) else ret == ENOMEM && i < 3 && grants[i].None?
    {
      hide Consistent, Grantable, Promised, Allocate;
      ret, i := 0, 0;
      while i < 3
        invariant i <= 3 && Consistent(bufs, kernel) && AllHeld(bufs, i) && NoneHeld(bufs, i)
        invariant Promised(kernel, grants, i)
        invariant forall k :: 0 <= k < i ==> grants[k].Some? && bufs[k].dma == grants[k].value
      {
        ghost var before := kernel;
        PromiseGrants(kernel, grants, i);
        ret := AllocOne(i, grants[i], fill);
        if ret != 0 {
          return;
        }
        PromiseStays(before, grants, i, fill);
        i := i + 1;
      }
    }

    /** Frees the first i buffers, the last one first. */
    method FreeInputs(n: nat)
      requires Consistent(bufs, kernel) && n <= 3 && NoneHeld(bufs, n)
      modifies this`bufs, this`kernel
      ensures Consistent(bufs, kernel) && NoneHeld(bufs, 0)
    {
      hide Consistent, Release;
      var i := n;
      while i != 0
        invariant i <= 3 && Consistent(bufs, kernel) && NoneHeld(bufs, i)
      {
        i := i - 1;
        FreeOne(i);
      }
    }

    /** Allocates three input buffers and the output buffer, or frees what it got and says why it failed. */
    method DmaInit(maskRet: int, grants: Grants, fill: Byte) returns (ret: int)
      requires Consistent(bufs, kernel) && NoneHeld(bufs, 0) && Promised(kernel, grants, 0)
      modifies this`bufs, this`kernel
      ensures Consistent(bufs, kernel)
      ensures ret == if maskRet != 0 then maskRet else if None in grants then ENOMEM else 0
      ensures if ret == 0 then AllHeld(bufs, 4) && Placement(bufs, grants) else NoneHeld(bufs, 0)
    {
      hide Consistent, Grantable, Promised, Allocate;
      if maskRet != 0 {
        return maskRet;
      }
      var i: nat;
      ret, i := AllocInputs(grants, fill);
      if ret == 0 {
        PromiseGrants(kernel, grants, S2MM);
        ret := AllocOne(S2MM, grants[S2MM], fill);
        if ret == 0 {
          assert forall k :: 0 <= k < 4 ==> grants[k].Some?;
          return;
        }
      }
      FreeInputs(i);
    }

    method DmaCleanup()
      requires Consistent(bufs, kernel)
      modifies this`bufs, this`kernel
      ensures Consistent(bufs, kernel) && NoneHeld(bufs, 0)
    {
      hide Consistent, Release;
      FreeOne(S2MM);
      for i := 0 to 3
        invariant Consistent(bufs, kernel)
        invariant bufs[S2MM].virt.None? && forall k :: 0 <= k < i ==> bufs[k].virt.None?
      {
        FreeOne(i);
      }
    }

    /** Binds the driver, or leaves nothing behind and reports the first thing that failed. */
    method Probe(devmOk: bool, resourceOk: bool, mapRet: int, maskRet: int, grants: Grants, fill: Byte,
                 registerRet: int) returns (ret: int)
      requires Valid() && !bound && Promised(kernel, grants, 0)
      modifies this
      ensures Valid() && (bound <==> ret == 0) && launches == old(launches) && regs == old(regs)
      ensures bound ==> Placement(bufs, grants)
      ensures ret == if !devmOk then ENOMEM else if !resourceOk then ENODEV else if mapRet != 0 then mapRet
                     else if maskRet != 0 then maskRet else if None in grants then ENOMEM else registerRet
    {
      hide Consistent, Promised;
      if !devmOk {
        return ENOMEM;
      }
      if !resourceOk {
        return ENODEV;
      }
      if mapRet != 0 {
        return mapRet;
      }
      ret := DmaInit(maskRet, grants, fill);
      if ret != 0 {
        return;
      }
      if registerRet != 0 {
        DmaCleanup();
        return registerRet;
      }
      bound := true;
    }

    /** Unbinding frees every buffer. */
    method Remove()
      requires Valid() && bound
      modifies this
      ensures Valid() && !bound && kernel.live == map[] && launches == old(launches) && regs == old(regs)
    {
      DmaCleanup();
      bound := false;
      assert kernel.live.Keys == HeldIds(bufs) == {};
    }

    /** copied is what copy_from_user left in the range; fault says it could not read all of it. */
    method CopyToBuffer(x: Transfer, copied: seq<Byte>, fault: bool) returns (ret: int)
      requires Valid() && bound && |copied| == x.numBytes
      modifies this`kernel
      ensures Valid()
      ensures var inRange := x.channel < 4 && x.offset + x.numBytes <= BUF_SIZE;
        && ret == (if !inRange then EINVAL else if fault then EFAULT else 0)
        && kernel == if !inRange then old(kernel)
                     else WriteBlock(old(kernel), bufs[x.channel].virt.value, x.offset, copied)
    {
      var buf := Channel(bufs, x.channel);
      ret := CheckRange(buf, x.offset, x.numBytes);
      if ret != 0 {
        return;
      }
      assert Backed(bufs[x.channel], kernel);
      WriteKeeps(bufs, kernel, buf.value.virt.value, x.offset, copied);
      hide Consistent;
      kernel := WriteBlock(kernel, buf.value.virt.value, x.offset, copied);
      return if fault then EFAULT else 0;
    }

    /** The bytes handed to copy_to_user; a failing check hands out nothing. */
    method CopyFromBuffer(x: Transfer, fault: bool) returns (ret: int, data: seq<Byte>)
      requires Valid() && bound
      ensures var inRange := x.channel < 4 && x.offset + x.numBytes <= BUF_SIZE;
        && ret == (if !inRange then EINVAL else if fault then EFAULT else 0)
        && (inRange ==>
              && bufs[x.channel].virt.value in kernel.memory
              && |kernel.memory[bufs[x.channel].virt.value]| == BUF_SIZE
              && data == kernel.memory[bufs[x.channel].virt.value][x.offset..x.offset + x.numBytes])
        && (!inRange ==> data == [])
    {
      var buf := Channel(bufs, x.channel);
      ret, data := CheckRange(buf, x.offset, x.numBytes), [];
      if ret != 0 {
        return;
      }
      assert Backed(bufs[x.channel], kernel);
      data := kernel.memory[buf.value.virt.value][x.offset..x.offset + x.numBytes];
      ret := if fault then EFAULT else 0;
    }

    /** The registers name the driver's blocks and the configured byte counts. */
    method ProgramDmaRegisters(cfg: RunConfig)
      requires Valid() && bound
      modifies this`regs
      ensures Valid()
      ensures Windows(regs) == [Window(bufs[0].dma, cfg.mm2s0), Window(bufs[1].dma, cfg.mm2s1),
                                Window(bufs[2].dma, cfg.mm2s2), Window(bufs[3].dma, cfg.s2mm)]
      ensures regs[0x2] == bufs[0].dma && regs[0x3] == cfg.mm2s0 && regs[0x6] == bufs[1].dma && regs[0x7] == cfg.mm2s1
      ensures regs[0xA] == bufs[2].dma && regs[0xB] == cfg.mm2s2 && regs[0xE] == bufs[3].dma && regs[0xF] == cfg.s2mm
      ensures forall k :: 0 <= k < 16 && k !in {0x2, 0x3, 0x6, 0x7, 0xA, 0xB, 0xE, 0xF} ==> regs[k] == old(regs)[k]
    {
      DmaFits(bufs, kernel, 0);
      DmaFits(bufs, kernel, 1);
      DmaFits(bufs, kernel, 2);
      DmaFits(bufs, kernel, 3);
      hide Consistent;
      // the casts to u32 lose nothing
      regs := regs[A_MM2S_0_ADDR := bufs[0].dma];
      regs := regs[A_MM2S_0_BYTES := cfg.mm2s0];
      regs := regs[A_MM2S_1_ADDR := bufs[1].dma];
      regs := regs[A_MM2S_1_BYTES := cfg.mm2s1];
      regs := regs[A_MM2S_2_ADDR := bufs[2].dma];
      regs := regs[A_MM2S_2_BYTES := cfg.mm2s2];
      regs := regs[A_S2MM_ADDR := bufs[S2MM].dma];
      regs := regs[A_S2MM_BYTES := cfg.s2mm];
    }

    /** One register write on the bus; the hardware starts when it hits the start register. */
    method WriteHw(reg: U32, value: U32)
      requires reg <= SA_MAX_REG_INDEX
      modifies this`regs, this`launches
      ensures regs == old(regs)[reg := value]
      ensures launches == old(launches) + if reg == A_START then [Launch(Windows(old(regs)), Blocks(bufs))] else []
    {
      if reg == A_START {
        launches := launches + [Launch(Windows(regs), Blocks(bufs))];
      }
      regs := regs[reg := value];
    }

    /** Starts the hardware on whatever the registers hold. */
    method Start()
      modifies this`regs, this`launches
      ensures regs == old(regs)[A_START := 1]
      ensures launches == old(launches) + [Launch(Windows(old(regs)), Blocks(bufs))]
    {
      WriteHw(A_START, 1);
    }

    /** A register write asked for by the user. */
    method WriteReg(reg: U32, value: U32) returns (ret: int)
      modifies this`regs, this`launches
      ensures ret == if reg <= SA_MAX_REG_INDEX then 0 else EINVAL
      ensures regs == if ret == 0 then old(regs)[reg := value] else old(regs)
      ensures launches == old(launches) + if reg == A_START then [Launch(Windows(old(regs)), Blocks(bufs))] else []
    {
      if reg > SA_MAX_REG_INDEX {
        return EINVAL;
      }
      WriteHw(reg, value);
      return 0;
    }

    /** Runs the accelerator: nothing is started unless every byte count fits its buffer. */
    method Run(cfg: RunConfig, polls: seq<Poll>) returns (ret: int)
      requires Valid() && bound
      requires |polls| >= Polls(cfg)
      modifies this`regs, this`launches
      ensures Valid()
      ensures var fits := cfg.mm2s0 <= bufs[0].size && cfg.mm2s1 <= bufs[1].size && cfg.mm2s2 <= bufs[2].size
                          && cfg.s2mm <= bufs[3].size;
        var done := exists k :: 0 <= k < (if cfg.timeout == 0 then 1000000 else cfg.timeout) && polls[k].AllDone();
        && fits == Fits(cfg)
        && ret == (if !fits then EINVAL else if done then 0 else ETIMEDOUT)
        && (if fits then Windows(regs) == Planned(bufs, cfg).windows else regs == old(regs))
        && launches == (if fits then old(launches) + [Planned(bufs, cfg)] else old(launches))
        && (fits ==> Contained(Planned(bufs, cfg)))
    {
      hide Consistent;
      if cfg.mm2s0 > bufs[0].size {
        return EINVAL;
      }
      if cfg.mm2s1 > bufs[1].size {
        return EINVAL;
      }
      if cfg.mm2s2 > bufs[2].size {
        return EINVAL;
      }
      if cfg.s2mm > bufs[S2MM].size {
        return EINVAL;
      }
      ProgramDmaRegisters(cfg);
      Start();
      ret := WaitDone(polls, Polls(cfg));
    }
  }

  /** A copy into a buffer and a copy of the same range out of it give the bytes back. */
  method CopyThereAndBack(d: Device, x: Transfer, copied: seq<Byte>) returns (ret: int, data: seq<Byte>)
    requires d.Valid() && d.bound && |copied| == x.numBytes
    modifies d`kernel
    ensures d.Valid()
    ensures if x.channel < 4 && x.offset + x.numBytes <= BUF_SIZE
            then ret == 0 && data == copied else ret == EINVAL && data == [] && d.kernel == old(d.kernel)
    ensures d.kernel.live == old(d.kernel.live) && d.kernel.freed == old(d.kernel.freed)
    ensures forall id :: id in old(d.kernel.memory) && !(x.channel < 4 && d.bufs[x.channel].virt == Some(id)) ==>
              id in d.kernel.memory && d.kernel.memory[id] == old(d.kernel.memory)[id]
    ensures forall id, i ::
              id in old(d.kernel.memory) && 0 <= i < |old(d.kernel.memory)[id]|
              && !(x.offset <= i < x.offset + x.numBytes) ==>
              && id in d.kernel.memory && |d.kernel.memory[id]| == |old(d.kernel.memory)[id]|
              && d.kernel.memory[id][i] == old(d.kernel.memory)[id][i]
  {
    ghost var before := d.kernel;
    if x.channel < 4 {
      assert Backed(d.bufs[x.channel], before);
    }
    ret := d.CopyToBuffer(x, copied, false);
    if ret == 0 {
      WriteReadsBack(before, d.bufs[x.channel].virt.value, x.offset, copied);
    }
    ret, data := d.CopyFromBuffer(x, false);
  }
}
