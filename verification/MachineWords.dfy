/** 32-bit machine constants, and how their word operations act on single bits. */
module MachineWords {
  import opened Bits

  function Half(x: bv32): bv32 {
    x >> 1
  }

  function BvSum(x: bv32, y: bv32): bv32 {
    x ^ y
  }

  function DropByte(x: bv32): bv32 {
    x >> 8
  }

  predicate LowBit(x: bv32) {
    x & 1 != 0
  }

  /** Bit i of x. */
  predicate BvBit(x: bv32, i: nat)
    decreases i
  {
    if i == 0 then LowBit(x) else BvBit(Half(x), i - 1)
  }

  /** The bits of a machine constant. */
  function Constant(x: bv32): Word {
    seq(32, i requires 0 <= i < 32 => BvBit(x, i))
  }

  lemma HalfXor(a: bv32, b: bv32)
    ensures Half(BvSum(a, b)) == BvSum(Half(a), Half(b))
    ensures LowBit(BvSum(a, b)) <==> LowBit(a) != LowBit(b)
  {
  }

  lemma {:induction false} BvXor(a: bv32, b: bv32, i: nat)
    ensures BvBit(BvSum(a, b), i) <==> BvBit(a, i) != BvBit(b, i)
    decreases i
  {
    hide Half, LowBit, BvSum;
    HalfXor(a, b);
    if i > 0 {
      BvXor(Half(a), Half(b), i - 1);
    }
  }

  lemma {:induction false} BvZero(i: nat)
    ensures !BvBit(0, i)
  {
    if i > 0 {
      BvZero(i - 1);
    }
  }

  function Halves(x: bv32, n: nat): bv32
    decreases n
  {
    if n == 0 then x else Halves(Half(x), n - 1)
  }

  lemma EightHalves(x: bv32)
    ensures Halves(x, 8) == DropByte(x)
  {
  }

  lemma {:induction false} HalvesAdd(x: bv32, m: nat, n: nat)
    ensures Halves(Halves(x, m), n) == Halves(x, m + n)
    ensures BvBit(x, m + n) <==> BvBit(Halves(x, m), n)
    decreases m
  {
    hide Half;
    if m > 0 {
      HalvesAdd(Half(x), m - 1, n);
    }
  }

  lemma FourBytesGone(x: bv32)
    ensures DropByte(DropByte(DropByte(DropByte(x)))) == 0
  {
  }

  /** There is no bit 32. */
  lemma NoBit32(x: bv32)
    ensures !BvBit(x, 32)
  {
    hide BvBit, Halves, DropByte;
    var x1 := DropByte(x);
    var x2 := DropByte(x1);
    var x3 := DropByte(x2);
    EightHalves(x);
    EightHalves(x1);
    EightHalves(x2);
    EightHalves(x3);
    FourBytesGone(x);
    HalvesAdd(x, 8, 24);
    HalvesAdd(x1, 8, 16);
    HalvesAdd(x2, 8, 8);
    HalvesAdd(x3, 8, 0);
    BvZero(0);
  }

  lemma ConstantXor(a: bv32, b: bv32)
    ensures Xor(Constant(a), Constant(b)) == Constant(BvSum(a, b))
  {
    hide BvBit, BvSum;
    forall i | 0 <= i < 32
      ensures Xor(Constant(a), Constant(b))[i] == Constant(BvSum(a, b))[i]
    {
      BvXor(a, b, i);
    }
  }

  lemma ConstantHalf(a: bv32)
    ensures Shr(Constant(a), 1) == Constant(Half(a))
    ensures Constant(a)[0] == LowBit(a)
  {
    NoBit32(a);
    BvStep(a, 0);
    hide BvBit, Half, LowBit;
    forall i | 0 <= i < 32
      ensures Shr(Constant(a), 1)[i] == Constant(Half(a))[i]
    {
      BvStep(a, i);
    }
  }

  lemma BvStep(a: bv32, i: nat)
    ensures BvBit(Half(a), i) <==> BvBit(a, i + 1)
    ensures BvBit(a, 0) <==> LowBit(a)
  {
  }

  /** The low byte of a is the low byte of b in reverse. */
  ghost predicate MirrorByte(a: bv32, b: bv32) {
    && BvBit(a, 0) == BvBit(b, 7) && BvBit(a, 1) == BvBit(b, 6)
    && BvBit(a, 2) == BvBit(b, 5) && BvBit(a, 3) == BvBit(b, 4)
    && BvBit(a, 4) == BvBit(b, 3) && BvBit(a, 5) == BvBit(b, 2)
    && BvBit(a, 6) == BvBit(b, 1) && BvBit(a, 7) == BvBit(b, 0)
  }

  function DropBytes(x: bv32, k: nat): bv32 {
    if k == 0 then x else DropByte(DropBytes(x, k - 1))
  }

  lemma {:induction false} ByteBit(x: bv32, k: nat, j: nat)
    ensures BvBit(x, 8 * k + j) == BvBit(DropBytes(x, k), j)
    ensures Halves(x, 8 * k) == DropBytes(x, k)
    decreases k
  {
    hide BvBit, DropByte;
    if k > 0 {
      ByteBit(x, k - 1, 8 + j);
      hide Halves;
      HalvesAdd(DropBytes(x, k - 1), 8, j);
      EightHalves(DropBytes(x, k - 1));
      HalvesAdd(x, 8 * (k - 1), 8);
    }
  }

  lemma MirrorBit(a: bv32, b: bv32, j: nat)
    requires MirrorByte(a, b) && j < 8
    ensures BvBit(a, 7 - j) == BvBit(b, j)
  {
    hide BvBit;
  }

  lemma MirroredBit(a: bv32, b: bv32, k: nat, j: nat)
    requires k < 4 && j < 8 && MirrorByte(DropBytes(a, 3 - k), DropBytes(b, k))
    ensures BvBit(a, 31 - (8 * k + j)) == BvBit(b, 8 * k + j)
  {
    hide BvBit, DropBytes, MirrorByte;
    ByteBit(b, k, j);
    ByteBit(a, 3 - k, 7 - j);
    MirrorBit(DropBytes(a, 3 - k), DropBytes(b, k), j);
    assert 8 * (3 - k) + (7 - j) == 31 - (8 * k + j);
  }

  lemma ConstantBit(x: bv32, i: nat)
    requires i < 32
    ensures Constant(x)[i] == BvBit(x, i)
  {
  }

  /** Byte-wise reversal is enough for reversal. */
  lemma Mirrored(a: bv32, b: bv32)
    requires MirrorByte(DropBytes(a, 0), DropBytes(b, 3)) && MirrorByte(DropBytes(a, 1), DropBytes(b, 2))
    requires MirrorByte(DropBytes(a, 2), DropBytes(b, 1)) && MirrorByte(DropBytes(a, 3), DropBytes(b, 0))
    ensures Rev(Constant(a)) == Constant(b)
  {
    hide BvBit, DropBytes, MirrorByte, Constant;
    forall i | 0 <= i < 32
      ensures Rev(Constant(a))[i] == Constant(b)[i]
    {
      ConstantBit(b, i);
      ConstantBit(a, 31 - i);
      MirroredBit(a, b, i / 8, i % 8);
    }
  }
}
