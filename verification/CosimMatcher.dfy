/**
 * The co-simulation memory checker: a queue of accesses observed on the DUT's bus is consumed by
 * the reference model's accesses, which arrive byte by byte when misaligned. The ledger proves
 * that, while no mismatch is reported, every byte is matched exactly once and in queue order.
 */
module CosimMatcher {
  type Byte = b: int | 0 <= b < 256

  /** A 32-bit word as its four bytes, least significant first. */
  type Word32 = w: seq<Byte> | |w| == 4 witness [0, 0, 0, 0]

  /** A byte-enable mask as the set of enabled lanes. */
  type Lanes = s: set<int> | forall l :: l in s ==> 0 <= l < 4

  const ALL_LANES: set<int> := {0, 1, 2, 3}

  type Address = a: int | 0 <= a < 0x1_0000_0000

  /** One DUT bus access; addr is word aligned, data and be are aligned to it. */
  datatype Access = Access(
    store: bool, data: Word32, addr: Address, be: Lanes, error: bool,
    misalignedFirst: bool, misalignedSecond: bool, firstSawError: bool)

  /** A queued access with the lanes the reference model has touched (be_spike). */
  datatype Pending = Pending(info: Access, seen: Lanes)

  datatype Verdict = Passed | Failed | BusError

  /** A load or store of the reference model that stays inside one word. */
  datatype IssAccess = IssAccess(store: bool, addr: Address, bytes: seq<Byte>) {
    predicate Valid() {
      1 <= |bytes| <= 4 && addr % 4 + |bytes| <= 4
    }

    function Word(): (a: Address)
      ensures a % 4 == 0 && a <= addr < a + 4
    {
      addr - addr % 4
    }

    function Lane(): (l: int)
      ensures 0 <= l < 4 && addr == Word() + l
    {
      addr % 4
    }

    /** expected_be */
    function Touched(): (lanes: Lanes)
      requires Valid()
      ensures forall l :: 0 <= l < 4 ==> (l in lanes <==> Lane() <= l < Lane() + |bytes|)
    {
      set l | l in ALL_LANES && Lane() <= l < Lane() + |bytes|
    }
  }

  predicate Misaligned(info: Access) {
    info.misalignedFirst || info.misalignedSecond
  }

  /** Misaligned accesses are met piecewise without repetition, aligned ones in one go. */
  predicate LanesFit(p: Pending, a: IssAccess)
    requires a.Valid()
  {
    if Misaligned(p.info) then a.Touched() !! p.seen && a.Touched() <= p.info.be else a.Touched() == p.info.be
  }

  /** Load data is not checked when the DUT saw an error response. */
  predicate Unchecked(info: Access) {
    info.error && !info.store
  }

  predicate DataAgrees(info: Access, a: IssAccess)
    requires a.Valid()
  {
    Unchecked(info) || forall k :: 0 <= k < |a.bytes| ==> info.data[a.Lane() + k] == a.bytes[k]
  }

  /** An erroneous first half that reaches the top lane must be followed by its second half. */
  predicate NeedsSecond(info: Access) {
    info.error && info.misalignedFirst && 3 in info.be
  }

  function NextWord(addr: Address): Address {
    (addr + 4) % 0x1_0000_0000
  }

  predicate SecondFollows(q: seq<Pending>)
    requires q != []
  {
    |q| >= 2 && q[1].info.misalignedSecond && q[1].info.addr == NextWord(q[0].info.addr)
  }

  predicate Complete(p: Pending) {
    !Misaligned(p.info) || p.info.error || p.seen == p.info.be
  }

  /** The queue after a reference model access, and the verdict on it. */
  function Judge(q: seq<Pending>, a: IssAccess): (r: (seq<Pending>, Verdict))
    requires a.Valid()
  {
    if q == [] || a.Word() != q[0].info.addr || a.store != q[0].info.store || !LanesFit(q[0], a) then (q, Failed)
    else
      var head := if Misaligned(q[0].info) then q[0].(seen := q[0].seen + a.Touched()) else q[0];
      if !DataAgrees(head.info, a) || (NeedsSecond(head.info) && !SecondFollows(q)) then (q[0 := head], Failed)
      else
        (if NeedsSecond(head.info) then q[2..] else if Complete(head) then q[1..] else q[0 := head],
         if head.info.error then BusError else Passed)
  }

  /** The head is the second half of a misaligned access whose first half failed its PMP check. */
  predicate DropsHead(q: seq<Pending>) {
    q != [] && q[0].info.misalignedSecond && q[0].info.firstSawError
  }

  // ---------------------------------------------------------------------------------------------
  // The checker as it runs

  function ShiftUp(w: Word32, lanes: int): Word32
    requires 0 <= lanes < 4
  {
    seq(lanes, k => 0) + w[..4 - lanes]
  }

  function Mask(w: Word32, lanes: Lanes): Word32 {
    seq(4, k requires 0 <= k < 4 => if k in lanes then w[k] else 0)
  }

  /** Joins the bytes of an access into one word. */
  method Combine(bytes: seq<Byte>) returns (w: Word32)
    requires 1 <= |bytes| <= 4
    ensures forall k :: 0 <= k < 4 ==> w[k] == if k < |bytes| then bytes[k] else 0
  {
    w := [0, 0, 0, 0];
    for i := 0 to |bytes|
      invariant |w| == 4
      invariant forall k :: 0 <= k < 4 ==> w[k] == if k < i then bytes[k] else 0
    {
      w := w[i := bytes[i]];
    }
  }

  /** Comparing the shifted bytes with the masked word compares exactly the enabled lanes. */
  lemma WordComparison(data: Word32, expected: Word32, bytes: seq<Byte>, base: int, lanes: Lanes)
    requires 0 <= base && |bytes| >= 1 && base + |bytes| <= 4
    requires forall k :: 0 <= k < 4 ==> expected[k] == if k < |bytes| then bytes[k] else 0
    requires forall l :: 0 <= l < 4 ==> (l in lanes <==> base <= l < base + |bytes|)
    ensures ShiftUp(expected, base) == Mask(data, lanes)
            <==> forall k :: 0 <= k < |bytes| ==> data[base + k] == bytes[k]
  {
    var shifted, masked := ShiftUp(expected, base), Mask(data, lanes);
    forall l | 0 <= l < 4
      ensures shifted[l] == if base <= l < base + |bytes| then bytes[l - base] else 0
      ensures masked[l] == if base <= l < base + |bytes| then data[l] else 0
    {
    }
    if shifted == masked {
      forall k | 0 <= k < |bytes|
        ensures data[base + k] == bytes[k]
      {
        assert shifted[base + k] == masked[base + k];
      }
    }
  }

  lemma NoOthersEnabled(touched: Lanes, be: Lanes)
    requires touched - be == {}
    ensures touched <= be
  {
    forall l | l in touched
      ensures l in be
    {
      assert l !in touched - be;
    }
  }

  lemma SlicesAfterUpdate(q: seq<Pending>, head: Pending)
    requires q != []
    ensures q[0 := head][1..] == q[1..]
    ensures |q| >= 2 ==> q[0 := head][1..][1..] == q[2..] && q[0 := head][1] == q[1]
  {
  }

  class Checker {
    var pending: seq<Pending>
    var errors: nat

    constructor ()
      ensures pending == [] && errors == 0
    {
      pending, errors := [], 0;
    }

    method NotifyDsideAccess(info: Access)
      modifies this
      ensures pending == old(pending) + [Pending(info, {})] && errors == old(errors)
    {
      pending := pending + [Pending(info, {})];
    }

    /** The word comparison under the access's byte mask. */
    method DataMatches(info: Access, a: IssAccess) returns (ok: bool)
      requires a.Valid()
      ensures ok == DataAgrees(info, a)
    {
      if info.store || !info.error {
        var expected := Combine(a.bytes);
        var shifted := ShiftUp(expected, a.Lane());
        var masked := Mask(info.data, a.Touched());
        ok := shifted == masked;
        WordComparison(info.data, expected, a.bytes, a.Lane(), a.Touched());
      } else {
        ok := true;
      }
    }

    method CheckMemAccess(a: IssAccess) returns (verdict: Verdict)
      requires a.Valid()
      modifies this
      ensures (pending, verdict) == Judge(old(pending), a)
      ensures errors == old(errors) + if verdict.Failed? then 1 else 0
    {
      if |pending| == 0 {
        errors := errors + 1;
        return Failed;
      }
      var info := pending[0].info;
      if a.Word() != info.addr {
        errors := errors + 1;
        return Failed;
      }
      if a.store != info.store {
        errors := errors + 1;
        return Failed;
      }
      var expectedBe := a.Touched();
      var done := false;
      var misaligned := info.misalignedFirst || info.misalignedSecond;
      if misaligned {
        if expectedBe * pending[0].seen != {} {
          errors := errors + 1;
          return Failed;
        }
        if expectedBe - info.be != {} {
          errors := errors + 1;
          return Failed;
        }
        NoOthersEnabled(expectedBe, info.be);
        pending := pending[0 := pending[0].(seen := pending[0].seen + expectedBe)];
        if pending[0].seen == info.be {
          done := true;
        }
      } else {
        if expectedBe != info.be {
          errors := errors + 1;
          return Failed;
        }
        done := true;
      }
      ghost var q := old(pending);
      ghost var head := if Misaligned(q[0].info) then q[0].(seen := q[0].seen + a.Touched()) else q[0];
      assert q[0 := q[0]] == q;
      assert pending == q[0 := head] && head.info == info && LanesFit(q[0], a);
      SlicesAfterUpdate(q, head);
      var matches := DataMatches(info, a);
      if !matches {
        errors := errors + 1;
        return Failed;
      }
      if info.error && misaligned {
        if info.misalignedFirst && 3 in info.be {
          if |pending| < 2 || !pending[1].info.misalignedSecond {
            errors := errors + 1;
            return Failed;
          }
          if pending[1].info.addr != NextWord(info.addr) {
            errors := errors + 1;
            return Failed;
          }
          pending := pending[1..];
        }
        done := true;
      }
      assert done == Complete(head);
      if done {
        pending := pending[1..];
      }
      assert pending == if NeedsSecond(info) then q[2..] else if Complete(head) then q[1..] else q[0 := head];
      return if info.error then BusError else Passed;
    }

    method MisalignedPmpFixup(pmpOk: bool)
      modifies this
      ensures pending == if DropsHead(old(pending)) && pmpOk then old(pending)[1..] else old(pending)
      ensures errors == old(errors) + if DropsHead(old(pending)) && !pmpOk then 1 else 0
    {
      if |pending| != 0 {
        var info := pending[0].info;
        if info.misalignedSecond && info.firstSawError {
          if !pmpOk {
            errors := errors + 1;
          } else {
            pending := pending[1..];
          }
        }
      }
    }
  }
}
