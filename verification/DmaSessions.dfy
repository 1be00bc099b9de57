/**
 * Sequences of probe, ioctls and remove, and where a start of the hardware lands. A RUN programs
 * the windows before it starts; the START ioctl and a raw write to the start register start on
 * whatever the registers still hold. The allocator decides where the buffers lie, so a start is
 * called safe when it stays inside the driver's own blocks wherever they were placed.
 */
module DmaSessions {
  import opened DmaDriver
  import opened Options

  /** What happens to the driver, with every outcome of the kernel and the hardware. */
  datatype Command =
    | ProbeCall(devmOk: bool, resourceOk: bool, mapRet: int, maskRet: int, grants: Grants, fill: Byte, registerRet: int)
    | RemoveCall
    | CopyTo(x: Transfer, copied: seq<Byte>, fault: bool)
    | CopyFrom(x: Transfer, fault: bool)
    | RunCall(cfg: RunConfig, polls: seq<Poll>)
    | StartCall
    | WriteReg(reg: U32, value: U32)
    | WaitCall(polls: seq<Poll>)

  /** The kernel keeps its promises and answers are as long as they have to be. */
  predicate Possible(c: Command) {
    match c
    case ProbeCall(_, _, _, _, grants, _, _) => Promised(NO_BLOCKS, grants, 0)
    case CopyTo(x, copied, _) => |copied| == x.numBytes
    case RunCall(cfg, polls) => |polls| >= Polls(cfg)
    case WaitCall(polls) => |polls| >= DEFAULT_TIMEOUT
    case _ => true
  }

  predicate AllPossible(calls: seq<Command>) {
    forall i :: 0 <= i < |calls| ==> Possible(calls[i])
  }

  type FourWindows = w: seq<Window> | |w| == 4
    witness [Window(0, 0), Window(0, 0), Window(0, 0), Window(0, 0)]

  const NOWHERE: FourWindows := [Window(0, 0), Window(0, 0), Window(0, 0), Window(0, 0)]

  /** What matters to a start: the blocks while bound, the windows in the registers, and the starts so far. */
  datatype Status = Status(bound: bool, blocks: FourWindows, windows: FourWindows, launches: seq<Launch>)

  const AT_RESET := Status(false, NOWHERE, NOWHERE, [])

  predicate Succeeds(c: Command) {
    && c.ProbeCall? && c.devmOk && c.resourceOk && c.mapRet == 0 && c.maskRet == 0
    && None !in c.grants && c.registerRet == 0
  }

  function Granted(grants: Grants): FourWindows
    requires None !in grants
  {
    [Window(grants[0].value, BUF_SIZE), Window(grants[1].value, BUF_SIZE),
     Window(grants[2].value, BUF_SIZE), Window(grants[3].value, BUF_SIZE)]
  }

  function Loaded(blocks: FourWindows, cfg: RunConfig): FourWindows {
    [Window(blocks[0].start, cfg.mm2s0), Window(blocks[1].start, cfg.mm2s1),
     Window(blocks[2].start, cfg.mm2s2), Window(blocks[3].start, cfg.s2mm)]
  }

  function AddrReg(k: nat): U32
    requires k < 4
  {
    [A_MM2S_0_ADDR, A_MM2S_1_ADDR, A_MM2S_2_ADDR, A_S2MM_ADDR][k]
  }

  function BytesReg(k: nat): U32
    requires k < 4
  {
    [A_MM2S_0_BYTES, A_MM2S_1_BYTES, A_MM2S_2_BYTES, A_S2MM_BYTES][k]
  }

  function WrittenAt(w: FourWindows, reg: U32, value: U32, k: nat): Window
    requires k < 4
  {
    if reg == AddrReg(k) then Window(value, w[k].size)
    else if reg == BytesReg(k) then Window(w[k].start, value) else w[k]
  }

  /** The windows after a write to any register. */
  function Written(w: FourWindows, reg: U32, value: U32): FourWindows {
    [WrittenAt(w, reg, value, 0), WrittenAt(w, reg, value, 1), WrittenAt(w, reg, value, 2), WrittenAt(w, reg, value, 3)]
  }

  lemma WritesWindows(r: Registers, reg: U32, value: U32)
    requires reg <= SA_MAX_REG_INDEX
    ensures Windows(r[reg := value]) == Written(Windows(r), reg, value)
  {
  }

  /** A start in this status. */
  function Launched(s: Status): Launch {
    Launch(s.windows, s.blocks)
  }

  function React(s: Status, c: Command): Status {
    match c
    case ProbeCall(_, _, _, _, grants, _, _) =>
      if !s.bound && Succeeds(c) then Status(true, Granted(grants), s.windows, s.launches) else s
    case RemoveCall => if s.bound then Status(false, NOWHERE, s.windows, s.launches) else s
    case RunCall(cfg, _) =>
      if s.bound && Fits(cfg) then
        var windows := Loaded(s.blocks, cfg);
        Status(true, s.blocks, windows, s.launches + [Launch(windows, s.blocks)])
      else s
    case StartCall => if s.bound then s.(launches := s.launches + [Launched(s)]) else s
    case WriteReg(reg, value) =>
      if s.bound then
        Status(true, s.blocks, Written(s.windows, reg, value),
               s.launches + if reg == A_START then [Launched(s)] else [])
      else s
    case WaitCall(_) => s
    case CopyTo(_, _, _) => s
    case CopyFrom(_, _) => s
  }

  /** The status after a sequence of calls from reset. */
  function Play(calls: seq<Command>): Status
    decreases |calls|
  {
    if calls == [] then AT_RESET else React(Play(calls[..|calls| - 1]), calls[|calls| - 1])
  }

  /** Channel k's address was last programmed by a RUN of this binding. */
  predicate Follows(calls: seq<Command>, k: nat)
    requires k < 4
    decreases |calls|
  {
    if calls == [] then false else
      var before, c := calls[..|calls| - 1], calls[|calls| - 1];
      FollowsAfter(Follows(before, k), Play(before).bound, c, k)
  }

  predicate FollowsAfter(follows: bool, bound: bool, c: Command, k: nat)
    requires k < 4
  {
    match c
    case ProbeCall(_, _, _, _, _, _, _) => follows && !(!bound && Succeeds(c))
    case RemoveCall => false
    case RunCall(cfg, _) => follows || (bound && Fits(cfg))
    case WriteReg(reg, _) => follows && !(bound && reg == AddrReg(k))
    case _ => follows
  }

  predicate Ready(calls: seq<Command>, k: nat)
    requires k < 4
  {
    Follows(calls, k) && Play(calls).windows[k].size <= BUF_SIZE
  }

  /** Every address was last programmed by a RUN of this binding, and every byte count fits. */
  predicate Armed(calls: seq<Command>) {
    Ready(calls, 0) && Ready(calls, 1) && Ready(calls, 2) && Ready(calls, 3)
  }

  lemma PlayNext(calls: seq<Command>, c: Command)
    ensures Play(calls + [c]) == React(Play(calls), c)
    ensures forall k :: 0 <= k < 4 ==>
              Follows(calls + [c], k) == FollowsAfter(Follows(calls, k), Play(calls).bound, c, k)
  {
    hide React, FollowsAfter;
    assert (calls + [c])[..|calls + [c]| - 1] == calls;
  }

  // ---------------------------------------------------------------------------------------------
  // A start after a run of this binding

  /** Blocks are full-sized, and an address that follows its buffer is the buffer's. */
  lemma {:induction false} Tracks(calls: seq<Command>)
    ensures var s := Play(calls);
      && (s.bound ==> forall k :: 0 <= k < 4 ==> s.blocks[k].size == BUF_SIZE)
      && (forall k :: 0 <= k < 4 && Follows(calls, k) ==> s.bound && s.windows[k].start == s.blocks[k].start)
    decreases |calls|
  {
    if calls != [] {
      Tracks(calls[..|calls| - 1]);
    }
  }

  /** With every address from a RUN of this binding and every byte count within its buffer, a start stays inside. */
  lemma StartInside(calls: seq<Command>)
    requires Armed(calls)
    ensures Play(calls).bound && Contained(Launched(Play(calls)))
  {
    hide Play, Follows;
    Tracks(calls);
  }

  // ---------------------------------------------------------------------------------------------
  // A start without one

  /** The same calls with the same outcomes, except for where buffers are placed. */
  predicate Alike(a: Command, b: Command) {
    a == b
    || (a.ProbeCall? && b.ProbeCall? && b == a.(grants := b.grants)
        && forall k :: 0 <= k < 4 ==> a.grants[k].Some? == b.grants[k].Some?)
  }

  predicate SameCalls(a: seq<Command>, b: seq<Command>) {
    |a| == |b| && forall i :: 0 <= i < |a| ==> Alike(a[i], b[i])
  }

  lemma AlikeSucceed(a: Command, b: Command)
    requires Alike(a, b)
    ensures Succeeds(a) == Succeeds(b) && (a == b || (a.ProbeCall? && b.ProbeCall?))
  {
    if a.ProbeCall? {
      assert forall k :: 0 <= k < 4 ==> (a.grants[k] == None) == (b.grants[k] == None);
    }
  }

  /** Placement decides neither whether the driver is bound, nor what a RUN programmed, nor any byte count. */
  lemma {:induction false} PlacementIsFree(a: seq<Command>, b: seq<Command>)
    requires SameCalls(a, b)
    ensures Play(a).bound == Play(b).bound && Armed(a) == Armed(b)
    ensures forall k :: 0 <= k < 4 ==>
              Follows(a, k) == Follows(b, k) && Play(a).windows[k].size == Play(b).windows[k].size
    decreases |a|
  {
    hide Succeeds, Alike;
    if a != [] {
      var n := |a| - 1;
      PlacementIsFree(a[..n], b[..n]);
      AlikeSucceed(a[n], b[n]);
    }
  }

  /** A placement in which channel k's block does not hold the start of w, nor any byte of it if it is short. */
  lemma Elsewhere(w: Window, k: nat) returns (grants: Grants)
    requires k < 4
    ensures None !in grants && Promised(NO_BLOCKS, grants, 0)
    ensures !w.Inside(Granted(grants)[k]) && (w.size <= BUF_SIZE ==> w.Apart(Granted(grants)[k]))
  {
    var at := if w.start <= BUF_SIZE then 0x1_0000 else 0;
    var free := [Some(0x2_0000), Some(0x3_0000), Some(0x4_0000), Some(0x5_0000)];
    grants := free[k := Some(at)];
  }

  lemma Extend(a: seq<Command>, b: seq<Command>, c: Command, d: Command)
    requires SameCalls(a, b) && AllPossible(b) && Alike(c, d) && Possible(d)
    ensures SameCalls(a + [c], b + [d]) && AllPossible(b + [d])
  {
    hide Alike, Possible;
  }

  lemma SameItself(calls: seq<Command>)
    ensures SameCalls(calls, calls) && forall c :: Alike(c, c)
  {
  }

  /** An address that no RUN of this binding programmed does not move with the buffers. */
  predicate Stays(a: seq<Command>, b: seq<Command>, k: nat)
    requires k < 4
  {
    !Follows(a, k) ==> Play(b).windows[k] == Play(a).windows[k]
  }

  predicate AllStay(a: seq<Command>, b: seq<Command>) {
    Stays(a, b, 0) && Stays(a, b, 1) && Stays(a, b, 2) && Stays(a, b, 3)
  }

  /** The probe that binds the driver, with its buffers elsewhere. */
  lemma ProbeMoves(before: seq<Command>, c: Command, grants: Grants) returns (d: Command)
    requires !Play(before).bound && Succeeds(c) && None !in grants && Promised(NO_BLOCKS, grants, 0)
    ensures Alike(c, d) && Possible(d)
    ensures var b := before + [d];
      Play(b).bound && Play(b).blocks == Granted(grants) && AllStay(before + [c], b)
  {
    hide Promised, Play, Follows;
    d := c.(grants := grants);
    PlayNext(before, c);
    PlayNext(before, d);
  }

  /** A later call of the same binding. */
  lemma LaterCallStays(a: seq<Command>, b: seq<Command>, c: Command)
    requires SameCalls(a, b) && AllStay(a, b) && Play(a).bound && Play(a + [c]).bound
    ensures AllStay(a + [c], b + [c]) && Play(b + [c]).bound && Play(b + [c]).blocks == Play(b).blocks
  {
    hide Play, Follows, Armed, SameCalls;
    PlacementIsFree(a, b);
    PlayNext(a, c);
    PlayNext(b, c);
  }

  /** The same calls with the buffers of the last binding placed as grants say. */
  lemma {:induction false} Move(calls: seq<Command>, grants: Grants) returns (moved: seq<Command>)
    requires Play(calls).bound && AllPossible(calls) && None !in grants && Promised(NO_BLOCKS, grants, 0)
    ensures SameCalls(calls, moved) && AllPossible(moved) && AllStay(calls, moved)
    ensures Play(moved).bound && Play(moved).blocks == Granted(grants)
    decreases |calls|
  {
    assert calls != [];
    hide Possible, React, Follows, Play, Alike, Succeeds, AllStay, Granted, Promised;
    var n := |calls| - 1;
    var before, c := calls[..n], calls[n];
    assert before + [c] == calls;
    if !Play(before).bound {
      LastCall(before, c);
      var d := ProbeMoves(before, c, grants);
      SameItself(before);
      Extend(before, before, c, d);
      moved := before + [d];
    } else {
      var start := Move(before, grants);
      SameItself([c]);
      Extend(before, start, c, c);
      LaterCallStays(before, start, c);
      moved := start + [c];
    }
  }

  /** Only a successful probe binds. */
  lemma LastCall(before: seq<Command>, c: Command)
    requires Play(before + [c]).bound && !Play(before).bound
    ensures Succeeds(c)
  {
    hide Play, Follows;
    PlayNext(before, c);
  }

  /** A start with an address that no RUN of this binding programmed: some placement puts that channel outside. */
  lemma StartOutside(calls: seq<Command>, k: nat) returns (moved: seq<Command>)
    requires Play(calls).bound && AllPossible(calls) && k < 4 && !Follows(calls, k)
    ensures SameCalls(calls, moved) && AllPossible(moved)
    ensures var s := Play(moved);
      && s.bound && !s.windows[k].Inside(s.blocks[k])
      && (s.windows[k].size <= BUF_SIZE ==> s.windows[k].Apart(s.blocks[k]))
  {
    hide Play, Follows, SameCalls, AllPossible, Promised;
    var grants := Elsewhere(Play(calls).windows[k], k);
    moved := Move(calls, grants);
    assert Stays(calls, moved, k);
  }

  /** A start is safe: however the buffers of these calls were placed, it stays inside them. */
  ghost predicate SafeToStart(calls: seq<Command>) {
    forall b :: SameCalls(calls, b) && AllPossible(b) ==> Contained(Launched(Play(b)))
  }

  lemma NotReady(calls: seq<Command>) returns (k: nat)
    requires !Armed(calls)
    ensures k < 4 && (Follows(calls, k) ==> Play(calls).windows[k].size > BUF_SIZE)
  {
    hide Play, Follows;
    k := if !Ready(calls, 0) then 0 else if !Ready(calls, 1) then 1 else if !Ready(calls, 2) then 2 else 3;
  }

  /** Unless every channel is ready, some placement makes a start leave the blocks. */
  lemma UnarmedStartsOutside(calls: seq<Command>) returns (moved: seq<Command>)
    requires AllPossible(calls) && Play(calls).bound && !Armed(calls)
    ensures SameCalls(calls, moved) && AllPossible(moved) && Play(moved).bound && !Contained(Launched(Play(moved)))
  {
    hide Play, Follows, SameCalls, AllPossible, Armed;
    var k := NotReady(calls);
    if Follows(calls, k) {
      SameItself(calls);
      Tracks(calls);
      moved := calls;
      assert Play(calls).blocks[k].size == BUF_SIZE < Play(calls).windows[k].size;
    } else {
      moved := StartOutside(calls, k);
    }
    var l := Launched(Play(moved));
    assert !l.windows[k].Inside(l.blocks[k]);
  }

  /**
   * While bound, a start is safe exactly when a RUN of this binding was the last to program every
   * address, and every byte count fits its buffer.
   */
  lemma StartSafe(calls: seq<Command>)
    requires AllPossible(calls) && Play(calls).bound
    ensures SafeToStart(calls) <==> Armed(calls)
  {
    hide Play, Armed, SameCalls, AllPossible;
    if Armed(calls) {
      forall b | SameCalls(calls, b) && AllPossible(b)
        ensures Contained(Launched(Play(b)))
      {
        PlacementIsFree(calls, b);
        StartInside(b);
      }
    } else {
      var moved := UnarmedStartsOutside(calls);
    }
  }

  // ---------------------------------------------------------------------------------------------
  // Without raw writes

  predicate NoWrites(calls: seq<Command>) {
    forall i :: 0 <= i < |calls| ==> !calls[i].WriteReg?
  }

  /** A RUN has passed its size check since the last successful probe. */
  predicate Ran(calls: seq<Command>)
    decreases |calls|
  {
    if calls == [] then false else
      var before, c := calls[..|calls| - 1], calls[|calls| - 1];
      match c
      case ProbeCall(_, _, _, _, _, _, _) => Ran(before) && !(!Play(before).bound && Succeeds(c))
      case RemoveCall => false
      case RunCall(cfg, _) => Ran(before) || (Play(before).bound && Fits(cfg))
      case _ => Ran(before)
  }

  /** As long as nobody writes registers directly, one RUN since the last successful probe is enough, and needed. */
  lemma {:induction false} ArmedIsRan(calls: seq<Command>)
    requires NoWrites(calls)
    ensures Armed(calls) <==> Ran(calls)
    ensures forall k :: 0 <= k < 4 ==> Follows(calls, k) == Ran(calls) && Play(calls).windows[k].size <= BUF_SIZE
    decreases |calls|
  {
    if calls != [] {
      ArmedIsRan(calls[..|calls| - 1]);
    }
  }

  // ---------------------------------------------------------------------------------------------
  // Two bindings, one run

  function ProbeAt(base: nat): Command
    requires base <= 0x1_0000_0000
  {
    ProbeCall(true, true, 0, 0, [Some(base), Some(base + 0x1000), Some(base + 0x2000), Some(base + 0x3000)], 0, 0)
  }

  const SMALL_RUN := RunConfig(16, 16, 16, 16, 1)
  const NO_ANSWER := [Poll(0, 0, 0, 0)]

  /** A binding that runs, and a second one elsewhere that starts without running. */
  const REBOUND := [ProbeAt(0), RunCall(SMALL_RUN, NO_ANSWER), RemoveCall, ProbeAt(0x1_0000), StartCall]

  lemma OneMore(calls: seq<Command>, i: nat)
    requires i < |calls|
    ensures Play(calls[..i + 1]) == React(Play(calls[..i]), calls[i])
  {
    hide Play, React;
    assert calls[..i + 1] == calls[..i] + [calls[i]];
    PlayNext(calls[..i], calls[i]);
  }

  lemma ProbePossible(base: nat)
    requires base <= 0x1_0000_0000 - 0x4000
    ensures Possible(ProbeAt(base)) && Succeeds(ProbeAt(base))
    ensures Granted(ProbeAt(base).grants) == BlocksAt(base)
  {
  }

  function BlocksAt(base: nat): FourWindows {
    [Window(base, BUF_SIZE), Window(base + 0x1000, BUF_SIZE), Window(base + 0x2000, BUF_SIZE),
     Window(base + 0x3000, BUF_SIZE)]
  }

  /** The binding that runs. */
  lemma FirstBinding()
    ensures var windows := Loaded(BlocksAt(0), SMALL_RUN);
      Play(REBOUND[..3]) == Status(false, NOWHERE, windows, [Launch(windows, BlocksAt(0))])
  {
    ProbePossible(0);
    assert REBOUND[..0] == [];
    OneMore(REBOUND, 0);
    hide Play, BlocksAt, Succeeds, Loaded;
    OneMore(REBOUND, 1);
    OneMore(REBOUND, 2);
  }

  /** The second binding starts with the first one's windows. */
  lemma SecondBinding(s: Status)
    requires !s.bound
    ensures React(React(s, ProbeAt(0x1_0000)), StartCall).launches
            == s.launches + [Launch(s.windows, BlocksAt(0x1_0000))]
  {
    hide Succeeds, BlocksAt;
    ProbePossible(0x1_0000);
  }

  lemma ReboundPossible()
    ensures AllPossible(REBOUND)
  {
    hide Promised;
    ProbePossible(0);
    ProbePossible(0x1_0000);
  }

  /** The second start works on the blocks of the first binding, freed long ago. */
  lemma StartOnFreedBlocks()
    ensures AllPossible(REBOUND)
    ensures var launches := Play(REBOUND).launches;
      && |launches| == 2 && Contained(launches[0]) && !Contained(launches[1])
      && launches[1].windows == launches[0].windows
      && forall k :: 0 <= k < 4 ==> launches[1].windows[k].Inside(launches[0].blocks[k])
  {
    hide Play, React, Possible, AllPossible, Succeeds;
    ReboundPossible();
    FirstBinding();
    SecondBinding(Play(REBOUND[..3]));
    OneMore(REBOUND, 3);
    OneMore(REBOUND, 4);
    assert REBOUND[..5] == REBOUND;
  }

  // ---------------------------------------------------------------------------------------------
  // Registers never programmed

  /** No RUN has passed its size check since reset, and no register was written directly. */
  predicate NeverProgrammed(calls: seq<Command>)
    decreases |calls|
  {
    calls != [] ==>
      var before, c := calls[..|calls| - 1], calls[|calls| - 1];
      NeverProgrammed(before) && !c.WriteReg? && !(c.RunCall? && Play(before).bound && Fits(c.cfg))
  }

  lemma GrantsApart(c: Command)
    requires Possible(c) && Succeeds(c)
    ensures Granted(c.grants)[0].Apart(Granted(c.grants)[1])
  {
  }

  lemma {:induction false} BlocksApart(calls: seq<Command>)
    requires AllPossible(calls) && Play(calls).bound
    ensures var b := Play(calls).blocks; b[0].size == b[1].size == BUF_SIZE && b[0].Apart(b[1])
    decreases |calls|
  {
    hide Possible, Armed;
    var n := |calls| - 1;
    if Play(calls[..n]).bound {
      BlocksApart(calls[..n]);
    } else {
      assert Possible(calls[n]);
      GrantsApart(calls[n]);
    }
  }

  lemma {:induction false} WindowsAtReset(calls: seq<Command>)
    requires NeverProgrammed(calls)
    ensures Play(calls).windows == NOWHERE
    decreases |calls|
  {
    if calls != [] {
      WindowsAtReset(calls[..|calls| - 1]);
    }
  }

  /**
   * A start on registers that were never programmed moves no byte, and yet it does not name the
   * driver's blocks: two of them cannot both lie at address 0.
   */
  lemma StartUnprogrammed(calls: seq<Command>)
    requires AllPossible(calls) && Play(calls).bound && NeverProgrammed(calls)
    ensures var l := Launched(Play(calls));
      !Contained(l) && forall k :: 0 <= k < 4 ==> l.windows[k].size == 0
  {
    hide Play, AllPossible;
    WindowsAtReset(calls);
    BlocksApart(calls);
    var l := Launched(Play(calls));
    assert !(l.windows[0].Inside(l.blocks[0]) && l.windows[1].Inside(l.blocks[1]));
  }

  // ---------------------------------------------------------------------------------------------
  // Whole sessions

  /** A start that does not program the windows first. */
  predicate StartsBare(c: Command) {
    c.StartCall? || (c.WriteReg? && c.reg == A_START)
  }

  /** Every bare start of a bound driver finds every channel ready. */
  predicate Disciplined(calls: seq<Command>) {
    forall i :: 0 <= i < |calls| && StartsBare(calls[i]) && Play(calls[..i]).bound ==> Armed(calls[..i])
  }

  predicate AllContained(launches: seq<Launch>) {
    forall i :: 0 <= i < |launches| ==> Contained(launches[i])
  }

  lemma OneLaunchMore(s: Status, c: Command)
    requires AllContained(s.launches) && (StartsBare(c) && s.bound ==> Contained(Launched(s)))
    requires s.bound ==> forall k :: 0 <= k < 4 ==> s.blocks[k].size == BUF_SIZE
    ensures AllContained(React(s, c).launches)
  {
  }

  /** A disciplined session never starts the hardware outside the driver's own blocks. */
  lemma {:induction false} DisciplineKeepsInside(calls: seq<Command>)
    requires Disciplined(calls)
    ensures AllContained(Play(calls).launches)
    decreases |calls|
  {
    hide React, Contained;
    if calls != [] {
      var n := |calls| - 1;
      var before, c := calls[..n], calls[n];
      forall i | 0 <= i < n && StartsBare(before[i]) && Play(before[..i]).bound
        ensures Armed(before[..i])
      {
        assert before[..i] == calls[..i] && before[i] == calls[i];
      }
      DisciplineKeepsInside(before);
      Tracks(before);
      if StartsBare(c) && Play(before).bound {
        assert Armed(calls[..n]);
        StartInside(before);
      }
      OneLaunchMore(Play(before), c);
    }
  }

  lemma {:induction false} LaunchesStay(before: seq<Command>, after: seq<Command>)
    ensures Play(before).launches <= Play(before + after).launches
    decreases |after|
  {
    hide Play;
    if after == [] {
      assert before + after == before;
    } else {
      var n := |after| - 1;
      LaunchesStay(before, after[..n]);
      PlayNext(before + after[..n], after[n]);
      assert before + after[..n] + [after[n]] == before + after;
    }
  }

  /** Without discipline some placement of the buffers makes the same calls start the hardware outside them. */
  lemma UndisciplinedStartsOutside(calls: seq<Command>) returns (moved: seq<Command>)
    requires AllPossible(calls) && !Disciplined(calls)
    ensures SameCalls(calls, moved) && AllPossible(moved) && !AllContained(Play(moved).launches)
  {
    hide Play, Armed, Possible, Alike;
    var i :| 0 <= i < |calls| && StartsBare(calls[i]) && Play(calls[..i]).bound && !Armed(calls[..i]);
    var start := UnarmedStartsOutside(calls[..i]);
    PlacementIsFree(calls[..i], start);
    SameItself(calls);
    moved := start + calls[i..];
    PlayNext(start, calls[i]);
    LaunchesStay(start + [calls[i]], calls[i + 1..]);
    assert moved == start + [calls[i]] + calls[i + 1..];
    var n := |Play(start).launches|;
    assert Play(moved).launches[n] == Launched(Play(start));
  }

  /** Wherever the buffers lie, these calls start the hardware only inside them. */
  ghost predicate SafeSession(calls: seq<Command>) {
    forall b :: SameCalls(calls, b) && AllPossible(b) ==> AllContained(Play(b).launches)
  }

  /** A session is safe exactly when every bare start finds every channel ready. */
  lemma SessionSafe(calls: seq<Command>)
    requires AllPossible(calls)
    ensures SafeSession(calls) <==> Disciplined(calls)
  {
    hide Play, AllPossible, AllContained;
    if Disciplined(calls) {
      forall b | SameCalls(calls, b) && AllPossible(b)
        ensures AllContained(Play(b).launches)
      {
        DisciplineIsFree(calls, b);
        DisciplineKeepsInside(b);
      }
    } else {
      var moved := UndisciplinedStartsOutside(calls);
    }
  }

  lemma DisciplineIsFree(a: seq<Command>, b: seq<Command>)
    requires SameCalls(a, b) && Disciplined(a)
    ensures Disciplined(b)
  {
    hide Play, Armed;
    forall i | 0 <= i < |b| && StartsBare(b[i]) && Play(b[..i]).bound
      ensures Armed(b[..i])
    {
      assert Alike(a[i], b[i]);
      PlacementIsFree(a[..i], b[..i]);
    }
  }

  /** The device as a status. */
  ghost function View(d: Device): Status
    reads d
  {
    Status(d.bound, if d.bound then Blocks(d.bufs) else NOWHERE, Windows(d.regs), d.launches)
  }

  lemma PromisedWhenEmpty(k: Kernel, grants: Grants)
    requires k.live == map[] && Promised(NO_BLOCKS, grants, 0)
    ensures Promised(k, grants, 0)
  {
  }

  /** One call on the device does what it does to the status. */
  method Call(d: Device, c: Command)
    requires d.Valid() && Possible(c)
    modifies d
    ensures d.Valid() && View(d) == React(old(View(d)), c)
  {
    match c {
      case ProbeCall(devmOk, resourceOk, mapRet, maskRet, grants, fill, registerRet) =>
        if !d.bound {
          d.NothingLive();
          PromisedWhenEmpty(d.kernel, grants);
          var _ := d.Probe(devmOk, resourceOk, mapRet, maskRet, grants, fill, registerRet);
        }
      case RemoveCall =>
        if d.bound {
          d.Remove();
        }
      case CopyTo(x, copied, fault) =>
        if d.bound {
          var _ := d.CopyToBuffer(x, copied, fault);
        }
      case CopyFrom(x, fault) =>
        if d.bound {
          var _, _ := d.CopyFromBuffer(x, fault);
        }
      case RunCall(cfg, polls) =>
        if d.bound {
          var _ := d.Run(cfg, polls);
        }
      case StartCall =>
        if d.bound {
          d.Start();
        }
      case WriteReg(reg, value) =>
        if d.bound {
          if reg <= SA_MAX_REG_INDEX {
            WritesWindows(d.regs, reg, value);
          }
          var _ := d.WriteReg(reg, value);
        }
      case WaitCall(polls) =>
        if d.bound {
          var _ := WaitDone(polls, DEFAULT_TIMEOUT);
        }
    }
  }

  /**
   * Any sequence of calls from reset, from any process one after the other: the
   * driver keeps exactly its own blocks and frees each of them once, and starts the hardware as
   * Play says, so only inside its blocks when every bare start finds every channel ready.
   */
  method Session(calls: seq<Command>) returns (d: Device)
    requires AllPossible(calls)
    ensures fresh(d) && d.Valid() && (!d.bound ==> d.kernel.live == map[])
    ensures View(d) == Play(calls)
    ensures Disciplined(calls) ==> AllContained(d.launches)
  {
    hide React, Possible;
    d := new Device();
    for i := 0 to |calls|
      invariant d.Valid() && View(d) == Play(calls[..i])
    {
      Call(d, calls[i]);
      OneMore(calls, i);
    }
    assert calls[..|calls|] == calls;
    if Disciplined(calls) {
      DisciplineKeepsInside(calls);
    }
    if !d.bound {
      d.NothingLive();
    }
  }
}
