/**
 * CRC32 and CRC32C over a byte, a half word or a word: two carry-less multiplications, one per
 * cycle, in place of 8, 16 or 32 bit-serial steps.
 */
module Crc {
  import opened Binary
  import opened Bits
  import opened Gf2Polynomials
  import opened CarrylessMultiply
  import opened MachineWords

  datatype Width = Byte | HalfWord | FullWord

  /** poly is CRC-32 (false) or CRC-32C (true). */
  datatype CrcOp = CrcOp(castagnoli: bool, width: Width)

  function Polynomial(op: CrcOp): bv32 {
    if op.castagnoli then 0x1edc_6f41 else 0x04c1_1db7
  }

  function MuRev(op: CrcOp): bv32 {
    if op.castagnoli then 0xdea7_13f1 else 0xf701_1641
  }

  function Steps(op: CrcOp): (n: nat)
    ensures n <= 32
  {
    match op.width
    case Byte => 8
    case HalfWord => 16
    case FullWord => 32
  }

  // ---------- The datapath ----------

  /** First cycle: what goes into the intermediate register. */
  function CrcFirst(op: CrcOp, rs1: Word): Word {
    Rev(ClmulRaw(Shl(rs1, 32 - Steps(op)), Constant(MuRev(op))))
  }

  /** Second cycle. */
  function CrcSecond(op: CrcOp, rs1: Word, stored: Word): Word {
    var reduced := Rev(ClmulRaw(stored, Constant(Polynomial(op))));
    match op.width
    case Byte => Xor(reduced, Shr(rs1, 8))
    case HalfWord => Xor(reduced, Shr(rs1, 16))
    case FullWord => reduced
  }

  // ---------- The bit-serial definition ----------

  /** The reflected constants of the Zbr proposal. */
  function Reflected(op: CrcOp): bv32 {
    if op.castagnoli then 0x82f6_3b78 else 0xedb8_8320
  }

  function CrcStep(op: CrcOp, x: Word): Word {
    if x[0] then Xor(Shr(x, 1), Constant(Reflected(op))) else Shr(x, 1)
  }

  function CrcSerial(op: CrcOp, x: Word, n: nat): Word {
    if n == 0 then x else CrcStep(op, CrcSerial(op, x, n - 1))
  }

  // ---------- Long division ----------

  /** One bit-serial step on machine words. */
  function StepBv(p: bv32, r: bv32): bv32 {
    if LowBit(r) then BvSum(Half(r), p) else Half(r)
  }

  lemma StepAgrees(op: CrcOp, r: bv32)
    ensures CrcStep(op, Constant(r)) == Constant(StepBv(Reflected(op), r))
  {
    hide Constant, Half, BvSum, LowBit, Xor, Shr;
    ConstantHalf(r);
    ConstantXor(Half(r), Reflected(op));
  }

  /** n steps of long division produce the quotient bits 1..n of m, lowest first. */
  predicate QuotientBits(p: bv32, r: bv32, m: bv32, n: nat)
    decreases n
  {
    n == 0 || (LowBit(r) == LowBit(Half(m)) && QuotientBits(p, StepBv(p, r), Half(m), n - 1))
  }

  /** Dividing x^63 by the polynomial yields the bits of its reversed quotient constant. */
  lemma CrcQuotient()
    ensures QuotientBits(0xedb8_8320, 0xedb8_8320, 0xf701_1641, 31)
  {
    assert QuotientBits(0xedb8_8320, 0xc5b4_28ef, 0x0000_000f, 3);
    assert QuotientBits(0xedb8_8320, 0xed59_b63b, 0x0000_00f7, 7);
    assert QuotientBits(0xedb8_8320, 0x0e13_51b8, 0x0000_0f70, 11);
    assert QuotientBits(0xedb8_8320, 0xe135_1b80, 0x0000_f701, 15);
    assert QuotientBits(0xedb8_8320, 0xc8d9_8a08, 0x000f_7011, 19);
    assert QuotientBits(0xedb8_8320, 0x3b83_984b, 0x00f7_0116, 23);
    assert QuotientBits(0xedb8_8320, 0x0edb_8832, 0x0f70_1164, 27);
  }

  /** Dividing x^63 by the polynomial yields the bits of its reversed quotient constant. */
  lemma CrcCQuotient()
    ensures QuotientBits(0x82f6_3b78, 0x82f6_3b78, 0xdea7_13f1, 31)
  {
    assert QuotientBits(0x82f6_3b78, 0xf644_63e6, 0x0000_000d, 3);
    assert QuotientBits(0x82f6_3b78, 0x52a0_c93f, 0x0000_00de, 7);
    assert QuotientBits(0x82f6_3b78, 0x3851_3ec5, 0x0000_0dea, 11);
    assert QuotientBits(0x82f6_3b78, 0x8b27_7743, 0x0000_dea7, 15);
    assert QuotientBits(0x82f6_3b78, 0x9d14_c3b8, 0x000d_ea71, 19);
    assert QuotientBits(0x82f6_3b78, 0xfbc3_faf9, 0x00de_a713, 23);
    assert QuotientBits(0x82f6_3b78, 0x8ad9_58cf, 0x0dea_713f, 27);
  }

  lemma QuotientStep(p: bv32, r: bv32, m: bv32, n: nat)
    requires n > 0 && QuotientBits(p, r, m, n)
    ensures LowBit(r) == LowBit(Half(m)) && QuotientBits(p, StepBv(p, r), Half(m), n - 1)
  {
    hide StepBv, Half, LowBit;
  }

  lemma Quotient(op: CrcOp)
    ensures QuotientBits(Reflected(op), Reflected(op), MuRev(op), 31)
  {
    if op.castagnoli {
      CrcCQuotient();
    } else {
      CrcQuotient();
    }
  }

  lemma CrcReflected()
    ensures Rev(Constant(0x04c1_1db7)) == Constant(0xedb8_8320)
  {
    assert MirrorByte(0x04c1_1db7, 0x0000_00ed);
    assert MirrorByte(0x0004_c11d, 0x0000_edb8);
    assert MirrorByte(0x0000_04c1, 0x00ed_b883);
    assert MirrorByte(0x0000_0004, 0xedb8_8320);
    hide MirrorByte;
    Mirrored(0x04c1_1db7, 0xedb8_8320);
  }

  lemma CrcCReflected()
    ensures Rev(Constant(0x1edc_6f41)) == Constant(0x82f6_3b78)
  {
    assert MirrorByte(0x1edc_6f41, 0x0000_0082);
    assert MirrorByte(0x001e_dc6f, 0x0000_82f6);
    assert MirrorByte(0x0000_1edc, 0x0082_f63b);
    assert MirrorByte(0x0000_001e, 0x82f6_3b78);
    hide MirrorByte;
    Mirrored(0x1edc_6f41, 0x82f6_3b78);
  }

  lemma ReflectedConstants(op: CrcOp)
    ensures Rev(Constant(Polynomial(op))) == Constant(Reflected(op))
  {
    if op.castagnoli {
      CrcCReflected();
    } else {
      CrcReflected();
    }
  }

  // ---------- Words as polynomials, read from the reflected end ----------

  /** The polynomial of a word in the bit order of the CRC: bit 0 holds the leading coefficient. */
  ghost function Reflect(w: Word): nat {
    Value(Rev(w))
  }

  lemma ReflectBelow(w: Word)
    ensures Reflect(w) < Pow2(32) && Value(w) < Pow2(32)
  {
    ValueBelow(w);
    ValueBelow(Rev(w));
  }

  lemma ReflectCoefficient(w: Word, k: nat)
    ensures Coefficient(Reflect(w), k) <==> k < 32 && w[31 - k]
  {
    ValueCoefficient(Rev(w), k);
  }

  lemma ReflectInjective(v: Word, w: Word)
    requires Reflect(v) == Reflect(w)
    ensures v == w
  {
    hide Reflect, Coefficient;
    forall i | 0 <= i < 32
      ensures v[i] == w[i]
    {
      ReflectCoefficient(v, 31 - i);
      ReflectCoefficient(w, 31 - i);
    }
  }

  lemma ValueXor(a: Word, b: Word)
    ensures Value(Xor(a, b)) == Sum(Value(a), Value(b))
  {
    hide Value, Sum, Coefficient, Pow2;
    ValueBelow(a);
    ValueBelow(b);
    ValueBelow(Xor(a, b));
    SumBelow(Value(a), Value(b), 32);
    forall k: nat | k < 32
      ensures Coefficient(Value(Xor(a, b)), k) == Coefficient(Sum(Value(a), Value(b)), k)
    {
      ValueCoefficient(a, k);
      ValueCoefficient(b, k);
      ValueCoefficient(Xor(a, b), k);
      SumCoefficient(Value(a), Value(b), k);
    }
    EqualCoefficients(Value(Xor(a, b)), Sum(Value(a), Value(b)), 32);
  }

  lemma ReflectXor(a: Word, b: Word)
    ensures Reflect(Xor(a, b)) == Sum(Reflect(a), Reflect(b))
  {
    assert Rev(Xor(a, b)) == Xor(Rev(a), Rev(b));
    ValueXor(Rev(a), Rev(b));
  }

  lemma {:induction false} LowCoefficient(a: nat, n: nat, k: nat)
    ensures Coefficient(Low(a, n), k) <==> k < n && Coefficient(a, k)
    decreases n
  {
    if n == 0 {
      HighOfZero(k);
    } else if k > 0 {
      LowCoefficient(a / 2, n - 1, k - 1);
    }
  }

  lemma {:induction false} HighCoefficient(a: nat, n: nat, k: nat)
    ensures Coefficient(High(a, n), k) <==> Coefficient(a, n + k)
    decreases n
  {
    if n > 0 {
      HighCoefficient(a / 2, n - 1, k);
    }
  }

  /** A right shift by n multiplies the reflected polynomial by x^n and drops what leaves the word. */
  lemma ReflectShr(w: Word, n: nat)
    ensures Reflect(Shr(w, n)) == Low(Up(Reflect(w), n), 32)
  {
    hide Reflect, Coefficient, Pow2, Low, Up;
    ReflectBelow(Shr(w, n));
    Split(Up(Reflect(w), n), 32);
    forall k: nat | k < 32
      ensures Coefficient(Reflect(Shr(w, n)), k) == Coefficient(Low(Up(Reflect(w), n), 32), k)
    {
      ReflectCoefficient(Shr(w, n), k);
      LowCoefficient(Up(Reflect(w), n), 32, k);
      UpCoefficient(Reflect(w), n, k);
      if k >= n {
        ReflectCoefficient(w, k - n);
      }
    }
    EqualCoefficients(Reflect(Shr(w, n)), Low(Up(Reflect(w), n), 32), 32);
  }

  /** A left shift by n divides the reflected polynomial by x^n. */
  lemma ReflectShl(w: Word, n: nat)
    requires n <= 32
    ensures Reflect(Shl(w, n)) == High(Reflect(w), n)
  {
    hide Reflect, Coefficient, Pow2, High;
    ReflectBelow(Shl(w, n));
    ReflectBelow(w);
    HighBelow(Reflect(w), n, 32);
    forall k: nat | k < 32
      ensures Coefficient(Reflect(Shl(w, n)), k) == Coefficient(High(Reflect(w), n), k)
    {
      ReflectCoefficient(Shl(w, n), k);
      HighCoefficient(Reflect(w), n, k);
      ReflectCoefficient(w, n + k);
    }
    EqualCoefficients(Reflect(Shl(w, n)), High(Reflect(w), n), 32);
  }

  lemma {:induction false} HighBelow(a: nat, n: nat, m: nat)
    requires a < Pow2(m)
    ensures High(a, n) < Pow2(m)
    decreases n
  {
    if n > 0 {
      HighBelow(a / 2, n - 1, m);
    }
  }

  /** The reversed low half of a product of reversed words is the product's high half, from x^31 on. */
  lemma ReflectedProduct(a: Word, b: Word)
    ensures Value(Rev(ClmulRaw(a, b))) == High(Product(Reflect(b), Reflect(a)), 31)
  {
    hide Value, Product, ClmulRaw, Coefficient, Pow2, High;
    var p := Product(Reflect(b), Reflect(a));
    ReflectBelow(a);
    ReflectBelow(b);
    ProductBelow(Reflect(b), Reflect(a), 32, 31);
    HighAgainstPow(p, 31, 32);
    ValueBelow(Rev(ClmulRaw(a, b)));
    assert Rev(Rev(a)) == a && Rev(Rev(b)) == b;
    forall k: nat | k < 32
      ensures Coefficient(Value(Rev(ClmulRaw(a, b))), k) == Coefficient(High(p, 31), k)
    {
      ValueCoefficient(Rev(ClmulRaw(a, b)), k);
      HighCoefficient(p, 31, k);
      ClmulIsProduct(Clmulr, Rev(a), Rev(b), k);
    }
    EqualCoefficients(Value(Rev(ClmulRaw(a, b))), High(p, 31), 32);
  }

  lemma {:induction false} HighAgainstPow(a: nat, n: nat, m: nat)
    requires a < Pow2(n + m)
    ensures High(a, n) < Pow2(m)
    decreases n
  {
    if n > 0 {
      HighAgainstPow(a / 2, n - 1, m);
    }
  }

  /** The low half of a product. */
  lemma LowProduct(a: Word, b: Word)
    ensures Value(ClmulRaw(a, b)) == Low(Product(Value(b), Value(a)), 32)
  {
    hide Value, Product, ClmulRaw, Coefficient, Pow2, Low;
    var p := Product(Value(b), Value(a));
    ValueBelow(ClmulRaw(a, b));
    Split(p, 32);
    forall k: nat | k < 32
      ensures Coefficient(Value(ClmulRaw(a, b)), k) == Coefficient(Low(p, 32), k)
    {
      ValueCoefficient(ClmulRaw(a, b), k);
      LowCoefficient(p, 32, k);
      ClmulIsProduct(Clmul, a, b, k);
    }
    EqualCoefficients(Value(ClmulRaw(a, b)), Low(p, 32), 32);
  }

  // ---------- The bit-serial form computes a remainder ----------

  /** x^32 plus the polynomial of the constant. */
  ghost function Modulus(op: CrcOp): nat {
    Sum(Up(1, 32), Value(Constant(Polynomial(op))))
  }

  lemma {:induction false} UpOne(n: nat)
    ensures Up(1, n) == Pow2(n)
  {
    if n > 0 {
      UpOne(n - 1);
    }
  }

  lemma ModulusDegree(op: CrcOp)
    ensures Pow2(32) <= Modulus(op) < Pow2(33)
  {
    hide Pow2, Sum, Up, Value, Polynomial;
    var p := Value(Constant(Polynomial(op)));
    ValueBelow(Constant(Polynomial(op)));
    UpOne(32);
    PowDouble(32);
    SumKeepsTop(p, Up(1, 32), 32);
    SumCommutes(p, Up(1, 32));
  }

  lemma PowDouble(n: nat)
    ensures Pow2(n + 1) == 2 * Pow2(n)
  {
  }

  lemma DoubleIsUp(a: nat, n: nat)
    ensures Up(a, 1) == 2 * a && Up(a, n + 1) == 2 * Up(a, n)
  {
    assert Up(a, 0) == a;
  }

  /** Doubling a reflected word moves its bit 0 to x^32. */
  lemma DoubleSplits(x: Word)
    ensures 2 * Reflect(x) == Sum(Up(Digit(x[0]), 32), Reflect(Shr(x, 1)))
  {
    hide Reflect, Pow2, Sum, Up, Low, High, Coefficient, Shr;
    var m := Reflect(x);
    ReflectCoefficient(x, 31);
    ReflectBelow(x);
    DoubleIsUp(m, 0);
    Split(2 * m, 32);
    ReflectShr(x, 1);
    PowDouble(32);
    PowDouble(0);
    TopDigit(m);
  }

  lemma TopDigit(m: nat)
    requires m < Pow2(32)
    ensures High(2 * m, 32) == Digit(Coefficient(m, 31))
  {
    assert 2 * m / 2 == m;
    assert High(2 * m, 32) == High(m, 31);
    hide High;
    HighAgainstPow(m, 31, 1);
    assert Pow2(1) == 2;
  }

  /** One step doubles the polynomial and subtracts the modulus when x^32 appears. */
  lemma StepDivides(op: CrcOp, x: Word)
    ensures 2 * Reflect(x) == Sum(Product(Digit(x[0]), Modulus(op)), Reflect(CrcStep(op, x)))
  {
    var p := Value(Constant(Polynomial(op)));
    ReflectedConstants(op);
    ReflectRev(Constant(Polynomial(op)));
    DoubleSplits(x);
    hide Reflect, Sum, Up, Product, Value, Constant;
    ProductUnits(Modulus(op));
    UpZero(32);
    if x[0] {
      var u, l := Up(1, 32), Reflect(Shr(x, 1));
      ReflectXor(Shr(x, 1), Constant(Reflected(op)));
      SumExchange(u, p, l, p);
      SumSelf(p);
      SumZero(Sum(u, l));
    }
  }

  lemma {:induction false} UpZero(n: nat)
    ensures Up(0, n) == 0
  {
    if n > 0 {
      UpZero(n - 1);
    }
  }

  /** Doubling a dividend with known quotient and remainder. */
  lemma DoubleDividend(a: nat, k: nat, r: nat, p: nat, d: nat, r': nat)
    requires a == Sum(Product(k, p), r) && 2 * r == Sum(Product(d, p), r') && d < 2
    ensures 2 * a == Sum(Product(2 * k + d, p), r')
  {
    hide Sum, Product;
    SumDouble(Product(k, p), r);
    ProductDoubleLeft(k, p);
    SumAssociates(Product(2 * k, p), Product(d, p), r');
    DistributesLeft(2 * k, d, p);
    SumCommutes(2 * k, d);
    DigitPlusDouble(d, k);
  }

  /** n bit-serial steps leave a remainder of x^n times the reflected input. */
  lemma {:induction false} SerialDivides(op: CrcOp, x: Word, n: nat) returns (k: nat)
    ensures Up(Reflect(x), n) == Sum(Product(k, Modulus(op)), Reflect(CrcSerial(op, x, n)))
  {
    hide Reflect, Sum, Product, Modulus, CrcStep;
    if n == 0 {
      k := 0;
      ProductUnits(Modulus(op));
      SumZero(Reflect(x));
    } else {
      var l := SerialDivides(op, x, n - 1);
      var y := CrcSerial(op, x, n - 1);
      StepDivides(op, y);
      DoubleDividend(Up(Reflect(x), n - 1), l, Reflect(y), Modulus(op), Digit(y[0]), Reflect(CrcStep(op, y)));
      k := 2 * l + Digit(y[0]);
    }
  }

  // ---------- The quotient constant ----------

  /** The polynomial read from bits 0..j-1 of w, leading coefficient first. */
  ghost function Prefix(w: Word, j: nat): nat
    requires j <= 32
  {
    if j == 0 then 0 else 2 * Prefix(w, j - 1) + Digit(w[j - 1])
  }

  lemma {:induction false} PrefixIsReflect(w: Word, j: nat)
    requires j <= 32
    ensures Prefix(w, j) == Value(Rev(w)[32 - j..])
  {
    var s := Rev(w)[32 - j..];
    if j > 0 {
      PrefixIsReflect(w, j - 1);
      assert s[1..] == Rev(w)[32 - (j - 1)..];
      assert s[0] == w[j - 1];
      ValueStep(s);
    }
  }

  /** One step of long division by the modulus. */
  lemma DivisionStep(op: CrcOp, x: Word, w: Word, j: nat)
    requires j < 31 && w[j + 1] == x[0]
    requires Up(1, 32 + j) == Sum(Product(Prefix(w, j + 1), Modulus(op)), Reflect(x))
    ensures Up(1, 33 + j) == Sum(Product(Prefix(w, j + 2), Modulus(op)), Reflect(CrcStep(op, x)))
  {
    hide Reflect, Sum, Product, Modulus, CrcStep, Up;
    DoubleIsUp(1, 32 + j);
    StepDivides(op, x);
    DoubleDividend(Up(1, 32 + j), Prefix(w, j + 1), Reflect(x), Modulus(op), Digit(x[0]), Reflect(CrcStep(op, x)));
  }

  /** The checked quotient bits really are a quotient: long division, one step at a time. */
  lemma {:induction false} LongDivision(op: CrcOp, r: bv32, m: bv32, w: Word, j: nat, n: nat) returns (e: Word)
    requires j + n <= 31 && QuotientBits(Reflected(op), r, m, n)
    requires forall i {:trigger BvBit(m, i)} | 0 <= i <= n :: BvBit(m, i) == w[j + i]
    requires Up(1, 32 + j) == Sum(Product(Prefix(w, j + 1), Modulus(op)), Reflect(Constant(r)))
    ensures Up(1, 32 + j + n) == Sum(Product(Prefix(w, j + 1 + n), Modulus(op)), Reflect(e))
    decreases n
  {
    hide *;
    if n == 0 {
      e := Constant(r);
    } else {
      QuotientStep(Reflected(op), r, m, n);
      BvStep(m, 0);
      BvStep(Half(m), 0);
      ConstantHalf(r);
      assert BvBit(m, 1) == w[j + 1];
      DivisionStep(op, Constant(r), w, j);
      StepAgrees(op, r);
      forall i {:trigger BvBit(Half(m), i)} | 0 <= i <= n - 1
        ensures BvBit(Half(m), i) == w[j + 1 + i]
      {
        BvStep(m, i);
        assert BvBit(m, i + 1) == w[j + (i + 1)];
      }
      e := LongDivision(op, StepBv(Reflected(op), r), Half(m), w, j + 1, n - 1);
    }
  }

  lemma DivisionStart(op: CrcOp)
    ensures Up(1, 32) == Sum(Product(Prefix(Constant(MuRev(op)), 1), Modulus(op)), Reflect(Constant(Reflected(op))))
  {
    var w, p := Constant(MuRev(op)), Value(Constant(Polynomial(op)));
    ReflectedConstants(op);
    ReflectRev(Constant(Polynomial(op)));
    ConstantHalf(MuRev(op));
    assert Prefix(w, 1) == 1;
    hide Reflect, Sum, Product, Value, Up, Prefix, Constant;
    ProductUnits(Modulus(op));
    SumAssociates(Up(1, 32), p, p);
    SumSelf(p);
    SumZero(Up(1, 32));
  }

  /** The constant behind MuRev is the quotient of x^64, but for its last coefficient, which is not stored. */
  lemma StoredQuotient(op: CrcOp) returns (mu: nat, e: nat)
    ensures mu / 2 == Reflect(Constant(MuRev(op))) && e < Pow2(32)
    ensures Up(1, 32 + 32) == Sum(Product(mu, Modulus(op)), e)
  {
    hide *;
    var w := Constant(MuRev(op));
    Quotient(op);
    DivisionStart(op);
    forall i {:trigger BvBit(MuRev(op), i)} | 0 <= i <= 31
      ensures BvBit(MuRev(op), i) == w[0 + i]
    {
      ConstantBit(MuRev(op), i);
    }
    var x := LongDivision(op, Reflected(op), MuRev(op), w, 0, 31);
    StepDivides(op, x);
    DoubleIsUp(1, 63);
    var u := Prefix(w, 32);
    DigitSmall(x[0]);
    DoubleDividend(Up(1, 63), u, Reflect(x), Modulus(op), Digit(x[0]), Reflect(CrcStep(op, x)));
    mu, e := 2 * u + Digit(x[0]), Reflect(CrcStep(op, x));
    PrefixIsReflectAll(w);
    ReflectBelow(CrcStep(op, x));
  }

  /** The low bits of the stored constants, which hold the leading coefficients: 1 and then 0. */
  lemma MuLeads(op: CrcOp)
    ensures Constant(MuRev(op))[0] && !Constant(MuRev(op))[1]
  {
    ConstantBit(MuRev(op), 0);
    ConstantBit(MuRev(op), 1);
  }

  /** What is stored is not the low 32 coefficients of the quotient of x^64: they differ at x^31. */
  lemma StoredIsNotLow(op: CrcOp, mu: nat)
    requires mu / 2 == Reflect(Constant(MuRev(op)))
    ensures Coefficient(Reflect(Constant(MuRev(op))), 31) && !Coefficient(Low(mu, 32), 31)
    ensures Reflect(Constant(MuRev(op))) != Low(mu, 32)
  {
    hide Low, Reflect, Constant, MuRev, Coefficient;
    MuLeads(op);
    ReflectCoefficient(Constant(MuRev(op)), 31);
    ReflectCoefficient(Constant(MuRev(op)), 30);
    LowCoefficient(mu, 32, 31);
    HalfCoefficient(mu, 30);
  }

  lemma HalfCoefficient(a: nat, k: nat)
    ensures Coefficient(a, k + 1) == Coefficient(a / 2, k)
  {
  }

  lemma DigitSmall(b: bool)
    ensures Digit(b) < 2
  {
  }

  lemma PrefixIsReflectAll(w: Word)
    ensures Prefix(w, 32) == Reflect(w)
  {
    hide Prefix, Value;
    PrefixIsReflect(w, 32);
    assert Rev(w)[0..] == Rev(w);
  }

  // ---------- Both forms compute the same remainder ----------

  /** Halving the quotient before multiplying shifts the wanted coefficients down by one. */
  lemma HalvedQuotient(mu: nat, a: nat)
    requires a < Pow2(32)
    ensures High(Product(a, mu), 32) == High(Product(mu / 2, a), 31)
  {
    hide Sum, Product, High, Pow2, Low;
    var u, d := mu / 2, mu % 2;
    ProductCommutes(a, mu);
    ProductStep(mu, a);
    var low := if d == 1 then a else 0;
    HighDistributes(low, 2 * Product(u, a), 32);
    LowOfSmall(a, 32);
    HighOfZero(32);
    HighOfDouble(Product(u, a), 31);
    SumZero(High(Product(u, a), 31));
  }

  lemma HighOfDouble(a: nat, n: nat)
    ensures High(2 * a, n + 1) == High(a, n)
  {
    assert 2 * a / 2 == a;
  }

  /** The leading coefficients of the operand, as many as there are steps. */
  ghost function Leading(op: CrcOp, rs1: Word): nat {
    High(Reflect(rs1), 32 - Steps(op))
  }

  /** What the first cycle stores is the Barrett quotient. */
  lemma FirstCycleQuotient(op: CrcOp, rs1: Word, mu: nat)
    requires mu / 2 == Reflect(Constant(MuRev(op)))
    ensures Value(CrcFirst(op, rs1)) == High(Product(Leading(op, rs1), mu), 32)
  {
    hide Value, Product, High, ClmulRaw, Reflect, Constant, Pow2, Steps, Shl, MuRev;
    var operand := Shl(rs1, 32 - Steps(op));
    ReflectedProduct(operand, Constant(MuRev(op)));
    ReflectShl(rs1, 32 - Steps(op));
    ReflectBelow(operand);
    HalvedQuotient(mu, Reflect(operand));
  }

  /** What the second cycle returns, as a polynomial. */
  lemma SecondCycleValue(op: CrcOp, rs1: Word, stored: Word)
    ensures Reflect(CrcSecond(op, rs1, stored))
            == Sum(Low(Product(Value(Constant(Polynomial(op))), Value(stored)), 32),
                   Low(Up(Reflect(rs1), Steps(op)), 32))
  {
    hide Value, Product, ClmulRaw, Reflect, Constant, Low, Up, Sum, Polynomial, Shr, Xor, Rev;
    var poly := Constant(Polynomial(op));
    var reduced := Rev(ClmulRaw(stored, poly));
    ReflectRev(ClmulRaw(stored, poly));
    LowProduct(stored, poly);
    ReflectShr(rs1, Steps(op));
    if op.width.FullWord? {
      UpSplits(Reflect(rs1), 32);
      SumZero(Reflect(reduced));
    } else {
      ReflectXor(reduced, Shr(rs1, Steps(op)));
    }
  }

  lemma ReflectRev(w: Word)
    ensures Reflect(Rev(w)) == Value(w)
  {
    assert Rev(Rev(w)) == w;
  }

  lemma {:induction false} HighOfUp(a: nat, m: nat, n: nat)
    ensures High(Up(a, m), m + n) == High(a, n)
    decreases m
  {
    if m > 0 {
      HighOfUp(a, m - 1, n);
    }
  }

  /** a * x^32 minus q times the modulus, when that is short, is the low part of q times the constant. */
  lemma ShortRemainder(a: nat, q: nat, p: nat)
    requires Sum(Up(a, 32), Product(q, Sum(Up(1, 32), p))) < Pow2(32)
    ensures Sum(Up(a, 32), Product(q, Sum(Up(1, 32), p))) == Low(Product(p, q), 32)
  {
    hide *;
    var modulus := Sum(Up(1, 32), p);
    LowOfSmall(Sum(Up(a, 32), Product(q, modulus)), 32);
    LowDistributes(Up(a, 32), Product(q, modulus), 32);
    UpSplits(a, 32);
    DistributesRight(q, Up(1, 32), p);
    UpDistributes(q, 1, 32);
    ProductOne(q);
    LowDistributes(Up(q, 32), Product(q, p), 32);
    UpSplits(q, 32);
    ProductCommutes(p, q);
    SumZero(Low(Product(p, q), 32));
  }

  /** The two cycles leave the remainder of x^n times the reflected input. */
  lemma TwoCyclesDivide(op: CrcOp, rs1: Word)
    ensures IsRemainder(Up(Reflect(rs1), Steps(op)), Modulus(op), 32, Reflect(CrcSecond(op, rs1, CrcFirst(op, rs1))))
  {
    hide Reflect, Sum, Product, Up, High, Low, Pow2, CrcFirst, CrcSecond, Value, Constant, Polynomial, Steps;
    var m, n, p := Reflect(rs1), Steps(op), Value(Constant(Polynomial(op)));
    var mu, e := StoredQuotient(op);
    var a := High(m, 32 - n);
    var q := High(Product(a, mu), 32);
    var result := CrcSecond(op, rs1, CrcFirst(op, rs1));
    ReflectBelow(rs1);
    HighBelow(m, 32 - n, 32);
    ModulusDegree(op);
    BarrettExact(a, Modulus(op), mu, e, 32);
    ShortRemainder(a, q, p);
    FirstCycleQuotient(op, rs1, mu);
    SecondCycleValue(op, rs1, CrcFirst(op, rs1));
    ReflectBelow(result);
    var low := Low(Up(m, n), 32);
    Split(Up(m, n), 32);
    HighOfUp(m, n, 32 - n);
    // q * P + ((a * x^32 + q * P) + low) = a * x^32 + low
    var qp := Product(q, Modulus(op));
    SumAssociates(qp, Sum(Up(a, 32), qp), low);
    SumCommutes(Up(a, 32), qp);
    SumCancels(qp, Up(a, 32));
    assert Up(m, n) == Sum(Product(q, Modulus(op)), Reflect(result));
  }

  /** Two carry-less multiplications equal 8, 16 or 32 bit-serial CRC steps, for every operand. */
  lemma CrcTwoCycles(op: CrcOp, rs1: Word)
    ensures CrcSecond(op, rs1, CrcFirst(op, rs1)) == CrcSerial(op, rs1, Steps(op))
  {
    hide Reflect, Product, Sum, Up, Pow2, CrcFirst, CrcSecond, CrcSerial, Modulus, Steps;
    var serial := CrcSerial(op, rs1, Steps(op));
    TwoCyclesDivide(op, rs1);
    var k := SerialDivides(op, rs1, Steps(op));
    ReflectBelow(serial);
    ModulusDegree(op);
    assert IsRemainder(Up(Reflect(rs1), Steps(op)), Modulus(op), 32, Reflect(serial));
    RemainderUnique(Up(Reflect(rs1), Steps(op)), Modulus(op), 32,
                    Reflect(CrcSecond(op, rs1, CrcFirst(op, rs1))), Reflect(serial));
    ReflectInjective(CrcSecond(op, rs1, CrcFirst(op, rs1)), serial);
  }

  /** n steps of the reflected bit-serial register: shift right, and subtract the polynomial when a 1 falls out. */
  function BitSerial(polynomial: Word, x: Word, n: nat): Word {
    if n == 0 then x else
      var y := BitSerial(polynomial, x, n - 1);
      if y[0] then Xor(Shr(y, 1), polynomial) else Shr(y, 1)
  }

  lemma {:induction false} SerialIsBitSerial(op: CrcOp, x: Word, n: nat)
    ensures CrcSerial(op, x, n) == BitSerial(Constant(Reflected(op)), x, n)
    decreases n
  {
    hide Constant, Reflected, Xor, Shr;
    if n > 0 {
      SerialIsBitSerial(op, x, n - 1);
    }
  }

  /** The six instructions by their polynomials, in reflected form, and their numbers of steps. */
  lemma CrcInstructions(rs1: Word)
    ensures var crc32, crc32c := Constant(0xedb8_8320), Constant(0x82f6_3b78);
      && Crc32(CrcOp(false, Byte), rs1) == BitSerial(crc32, rs1, 8)
      && Crc32(CrcOp(false, HalfWord), rs1) == BitSerial(crc32, rs1, 16)
      && Crc32(CrcOp(false, FullWord), rs1) == BitSerial(crc32, rs1, 32)
      && Crc32(CrcOp(true, Byte), rs1) == BitSerial(crc32c, rs1, 8)
      && Crc32(CrcOp(true, HalfWord), rs1) == BitSerial(crc32c, rs1, 16)
      && Crc32(CrcOp(true, FullWord), rs1) == BitSerial(crc32c, rs1, 32)
  {
    hide CrcFirst, CrcSecond, BitSerial, CrcSerial, Constant;
    CrcInstruction(CrcOp(false, Byte), rs1);
    CrcInstruction(CrcOp(false, HalfWord), rs1);
    CrcInstruction(CrcOp(false, FullWord), rs1);
    CrcInstruction(CrcOp(true, Byte), rs1);
    CrcInstruction(CrcOp(true, HalfWord), rs1);
    CrcInstruction(CrcOp(true, FullWord), rs1);
  }

  /** The result of both cycles. */
  function Crc32(op: CrcOp, rs1: Word): Word {
    CrcSecond(op, rs1, CrcFirst(op, rs1))
  }

  lemma CrcInstruction(op: CrcOp, rs1: Word)
    ensures Crc32(op, rs1) == BitSerial(Constant(Reflected(op)), rs1, Steps(op))
  {
    hide CrcFirst, CrcSecond, BitSerial, CrcSerial, Constant, Reflected, Steps;
    CrcTwoCycles(op, rs1);
    SerialIsBitSerial(op, rs1, Steps(op));
  }
}
