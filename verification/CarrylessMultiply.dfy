/**
 * The carry-less multiplier: 32 masked and shifted copies of one operand, folded by a five-level
 * tree of exclusive ors. CLMULR and CLMULH reuse it on reversed operands.
 */
module CarrylessMultiply {
  import opened Binary
  import opened Bits
  import opened Gf2Polynomials

  datatype ClmulOp = Clmul | Clmulr | Clmulh

  // ---------- The datapath ----------

  /** clmul_and_stage */
  function AndStage(a: Word, b: Word): (s: seq<Word>)
    ensures |s| == 32
  {
    seq(32, i requires 0 <= i < 32 => if b[i] then Shl(a, i) else Zeros())
  }

  /** One level of the tree: neighbours are combined. */
  function XorPairs(s: seq<Word>): (t: seq<Word>)
    requires |s| % 2 == 0
    ensures |t| == |s| / 2
  {
    seq(|s| / 2, i requires 0 <= i < |s| / 2 => Xor(s[2 * i], s[2 * i + 1]))
  }

  /** clmul_result_raw */
  function ClmulRaw(a: Word, b: Word): Word {
    XorPairs(XorPairs(XorPairs(XorPairs(XorPairs(AndStage(a, b))))))[0]
  }

  /** clmul_result for the three instructions. */
  function ClmulResult(op: ClmulOp, a: Word, b: Word): Word {
    match op
    case Clmul => ClmulRaw(a, b)
    case Clmulr => Rev(ClmulRaw(Rev(a), Rev(b)))
    case Clmulh => Shr(Rev(ClmulRaw(Rev(a), Rev(b))), 1)
  }

  // ---------- Words as polynomials ----------

  /** The polynomial whose coefficients are the bits of s. */
  ghost function Value(s: seq<bool>): nat {
    if s == [] then 0 else Digit(s[0]) + 2 * Value(s[1..])
  }

  ghost predicate Coefficient(a: nat, k: nat) {
    High(a, k) % 2 == 1
  }

  lemma {:induction false} ValueBelow(s: seq<bool>)
    ensures Value(s) < Pow2(|s|)
  {
    if s != [] {
      ValueBelow(s[1..]);
    }
  }

  lemma ValueStep(s: seq<bool>)
    requires s != []
    ensures Value(s) % 2 == Digit(s[0]) && Value(s) / 2 == Value(s[1..])
  {
  }

  lemma {:induction false} ValueCoefficient(s: seq<bool>, k: nat)
    ensures Coefficient(Value(s), k) <==> k < |s| && s[k]
    decreases |s|
  {
    if s == [] {
      HighOfZero(k);
    } else {
      hide Value;
      ValueStep(s);
      if k > 0 {
        ValueCoefficient(s[1..], k - 1);
      }
    }
  }

  lemma {:induction false} HighOfZero(k: nat)
    ensures High(0, k) == 0
  {
    if k > 0 {
      HighOfZero(k - 1);
    }
  }

  /** Polynomials of degree below n with equal coefficients are equal. */
  lemma {:induction false} EqualCoefficients(a: nat, b: nat, n: nat)
    requires a < Pow2(n) && b < Pow2(n)
    requires forall k: nat | k < n :: Coefficient(a, k) == Coefficient(b, k)
    ensures a == b
    decreases n
  {
    if n > 0 {
      assert Coefficient(a, 0) == Coefficient(b, 0);
      forall k: nat | k < n - 1
        ensures Coefficient(a / 2, k) == Coefficient(b / 2, k)
      {
        assert Coefficient(a, k + 1) == Coefficient(b, k + 1);
      }
      EqualCoefficients(a / 2, b / 2, n - 1);
    }
  }

  lemma SumCoefficient(a: nat, b: nat, k: nat)
    ensures Coefficient(Sum(a, b), k) <==> Coefficient(a, k) != Coefficient(b, k)
  {
    HighDistributes(a, b, k);
    SumStep(High(a, k), High(b, k));
  }

  lemma {:induction false} UpCoefficient(a: nat, n: nat, k: nat)
    ensures Coefficient(Up(a, n), k) <==> k >= n && Coefficient(a, k - n)
    decreases n
  {
    if n > 0 && k > 0 {
      UpCoefficient(a, n - 1, k - 1);
    }
  }

  /** Appending one more coefficient adds one more power. */
  lemma {:induction false} ValueAppend(s: seq<bool>, b: bool)
    ensures Value(s + [b]) == Sum(Value(s), Up(Digit(b), |s|))
  {
    if s == [] {
      assert s + [b] == [b];
    } else {
      assert (s + [b])[1..] == s[1..] + [b];
      ValueAppend(s[1..], b);
      SumStep(Value(s), Up(Digit(b), |s|));
    }
  }

  // ---------- The tree computes the product ----------

  /** Parity, over the first n words, of bit k. */
  ghost predicate Parity(s: seq<Word>, k: nat, n: nat)
    requires k < 32 && n <= |s|
  {
    n > 0 && Parity(s, k, n - 1) != s[n - 1][k]
  }

  lemma {:induction false} PairsKeepParity(s: seq<Word>, k: nat, n: nat)
    requires k < 32 && |s| % 2 == 0 && n <= |s| / 2
    ensures Parity(XorPairs(s), k, n) == Parity(s, k, 2 * n)
    decreases n
  {
    if n > 0 {
      PairsKeepParity(s, k, n - 1);
      assert XorPairs(s)[n - 1] == Xor(s[2 * n - 2], s[2 * n - 1]);
      assert Parity(s, k, 2 * n) == (Parity(s, k, 2 * n - 1) != s[2 * n - 1][k]);
    }
  }

  /** Coefficient k of the product, summed over the first n digits of b. */
  ghost predicate Convolution(b: Word, a: Word, k: int, n: nat)
    requires n <= 32
  {
    n > 0 && Convolution(b, a, k, n - 1) != (b[n - 1] && 0 <= k - (n - 1) < 32 && a[k - (n - 1)])
  }

  lemma {:induction false} StageParity(a: Word, b: Word, k: nat, n: nat)
    requires k < 32 && n <= 32
    ensures Parity(AndStage(a, b), k, n) == Convolution(b, a, k, n)
    decreases n
  {
    if n > 0 {
      StageParity(a, b, k, n - 1);
    }
  }

  lemma RawBit(a: Word, b: Word, k: nat)
    requires k < 32
    ensures ClmulRaw(a, b)[k] == Convolution(b, a, k, 32)
  {
    hide XorPairs, AndStage, Convolution;
    var s0 := AndStage(a, b);
    var s1 := XorPairs(s0);
    var s2 := XorPairs(s1);
    var s3 := XorPairs(s2);
    var s4 := XorPairs(s3);
    var s5 := XorPairs(s4);
    assert s5[0][k] == Parity(s5, k, 1);
    hide Parity;
    PairsKeepParity(s4, k, 1);
    PairsKeepParity(s3, k, 2);
    PairsKeepParity(s2, k, 4);
    PairsKeepParity(s1, k, 8);
    PairsKeepParity(s0, k, 16);
    StageParity(a, b, k, 32);
  }

  /** The coefficients of a product are the convolution of the coefficients of its factors. */
  lemma {:induction false} ProductCoefficient(b: Word, a: Word, k: nat, n: nat)
    requires n <= 32
    ensures Coefficient(Product(Value(b[..n]), Value(a)), k) == Convolution(b, a, k, n)
    decreases n
  {
    if n == 0 {
      ProductUnits(Value(a));
      HighOfZero(k);
    } else {
      ProductCoefficient(b, a, k, n - 1);
      var d, prefix := Digit(b[n - 1]), b[..n - 1];
      assert b[..n] == prefix + [b[n - 1]];
      hide Sum, Product, Up, Coefficient;
      ValueAppend(prefix, b[n - 1]);
      DistributesLeft(Value(prefix), Up(d, n - 1), Value(a));
      UpDistributes(d, Value(a), n - 1);
      ProductUnits(Value(a));
      SumCoefficient(Product(Value(prefix), Value(a)), Up(Product(d, Value(a)), n - 1), k);
      UpCoefficient(Product(d, Value(a)), n - 1, k);
      if k >= n - 1 {
        ValueCoefficient(a, k - (n - 1));
        ZeroCoefficient(k - (n - 1));
      }
    }
  }

  lemma ZeroCoefficient(k: nat)
    ensures !Coefficient(0, k)
  {
    HighOfZero(k);
  }

  /** Every coefficient of the full product of two words is a convolution. */
  lemma WordProductCoefficient(b: Word, a: Word, k: nat)
    ensures Coefficient(Product(Value(b), Value(a)), k) == Convolution(b, a, k, 32)
  {
    assert b[..32] == b;
    ProductCoefficient(b, a, k, 32);
  }

  /** Reversing both factors reverses the convolution: position k becomes 62 - k. */
  lemma {:induction false} ConvolutionReversed(b: Word, a: Word, k: int, n: nat)
    requires n <= 32
    ensures Convolution(Rev(b), Rev(a), k, n)
            == (Convolution(b, a, 62 - k, 32) != Convolution(b, a, 62 - k, 32 - n))
    decreases n
  {
    if n > 0 {
      ConvolutionReversed(b, a, k, n - 1);
      var i := 32 - n;
      assert Convolution(b, a, 62 - k, i + 1)
          == (Convolution(b, a, 62 - k, i) != (b[i] && 0 <= 62 - k - i < 32 && a[62 - k - i]));
    }
  }

  // ---------- The three instructions ----------

  /** CLMUL returns bits 31:0 of the carry-less product, CLMULR bits 62:31 and CLMULH bits 63:32. */
  lemma ClmulIsProduct(op: ClmulOp, a: Word, b: Word, i: nat)
    requires i < 32
    ensures ClmulResult(op, a, b)[i] <==>
            Coefficient(Product(Value(b), Value(a)), i + if op.Clmul? then 0 else if op.Clmulr? then 31 else 32)
  {
    hide ClmulRaw, Coefficient, Product, Convolution;
    var k := i + if op.Clmul? then 0 else if op.Clmulr? then 31 else 32;
    WordProductCoefficient(b, a, k);
    if op.Clmul? {
      RawBit(a, b, i);
    } else if k <= 62 {
      RawBit(Rev(a), Rev(b), 62 - k);
      ReversedAll(b, a, 62 - k);
    } else {
      NoTopCoefficient(b, a, 32);
    }
  }

  lemma ReversedAll(b: Word, a: Word, k: int)
    ensures Convolution(Rev(b), Rev(a), k, 32) == Convolution(b, a, 62 - k, 32)
  {
    ConvolutionReversed(b, a, k, 32);
  }

  /** The product of two words has degree at most 62. */
  lemma {:induction false} NoTopCoefficient(b: Word, a: Word, n: nat)
    requires n <= 32
    ensures !Convolution(b, a, 63, n)
  {
    if n > 0 {
      NoTopCoefficient(b, a, n - 1);
    }
  }
}
