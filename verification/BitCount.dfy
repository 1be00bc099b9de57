/** CPOP, CTZ and CLZ: one prefix counter behind three different bit selections. */
module BitCounting {
  import opened Bits
  import opened PrefixCounter

  datatype CountOp = Cpop | Ctz | Clz

  /** Bit i of m says whether x has a set bit among the s positions that end at i. */
  ghost predicate Smeared(m: Word, x: Word, s: nat) {
    forall i | 0 <= i < 32 ::
      m[i] <==> Count(x, i + 1) > Count(x, if i + 1 <= s then 0 else i + 1 - s)
  }

  /** OR-ing a smeared word with itself, shifted by the width of its windows, doubles that width. */
  lemma SmearStep(m: Word, x: Word, s: nat)
    requires s > 0 && Smeared(m, x, s)
    ensures Smeared(Or(m, Shl(m, s)), x, 2 * s)
  {
    forall i | 0 <= i < 32
      ensures Or(m, Shl(m, s))[i] <==> Count(x, i + 1) > Count(x, if i + 1 <= 2 * s then 0 else i + 1 - 2 * s)
    {
      if i >= s {
        CountWindow(x, i + 1 - s, i + 1);
        CountWindow(x, if i + 1 <= 2 * s then 0 else i + 1 - 2 * s, i + 1 - s);
      }
    }
  }

  /** bitcnt_bit_mask: covers exactly the positions below the lowest set bit. */
  method TrailingMask(x: Word) returns (mask: Word)
    ensures forall i | 0 <= i < 32 :: mask[i] <==> Count(x, i + 1) == 0
  {
    mask := x;
    assert Smeared(mask, x, 1);
    SmearStep(mask, x, 1);
    mask := Or(mask, Shl(mask, 1));
    SmearStep(mask, x, 2);
    mask := Or(mask, Shl(mask, 2));
    SmearStep(mask, x, 4);
    mask := Or(mask, Shl(mask, 4));
    SmearStep(mask, x, 8);
    mask := Or(mask, Shl(mask, 8));
    SmearStep(mask, x, 16);
    mask := Or(mask, Shl(mask, 16));
    mask := Not(mask);
  }

  /** A word that covers exactly the positions below the lowest set bit of x counts them. */
  lemma {:induction false} CoverCount(x: Word, cover: Word, n: nat)
    requires n <= 32
    requires forall i | 0 <= i < 32 :: cover[i] <==> Count(x, i + 1) == 0
    ensures var z := Count(cover, n);
            && z <= n && Count(x, z) == 0
            && (z < n ==> x[z])
  {
    if n > 0 {
      CoverCount(x, cover, n - 1);
      var z := Count(cover, n - 1);
      if z < n - 1 {
        CountWindow(x, z + 1, n);
      }
    }
  }

  lemma {:induction false} NoBitsBelow(x: Word, n: nat)
    requires n <= 32 && Count(x, n) == 0
    ensures forall j | 0 <= j < n :: !x[j]
  {
    if n > 0 {
      NoBitsBelow(x, n - 1);
    }
  }

  /** The cover of the positions below the lowest set bit has as many bits as there are such positions. */
  lemma TrailingCount(x: Word, mask: Word)
    requires forall i | 0 <= i < 32 :: mask[i] <==> Count(x, i + 1) == 0
    ensures var z := Count(And(mask, Not(x)), 32);
            z <= 32 && (forall j | 0 <= j < z :: !x[j]) && (z < 32 ==> x[z])
  {
    var cover := And(mask, Not(x));
    CoverCount(x, cover, 32);
    NoBitsBelow(x, Count(cover, 32));
  }

  /** bitcnt_result for the three counting operations. */
  method BitCount(op: CountOp, a: Word) returns (r: nat)
    ensures r <= 32
    ensures op.Cpop? ==> r == Count(a, 32)
    ensures op.Ctz? ==> (forall j | 0 <= j < r :: !a[j]) && (r < 32 ==> a[r])
    ensures op.Clz? ==> (forall j | 32 - r <= j < 32 :: !a[j]) && (r < 32 ==> a[31 - r])
  {
    var maskOp := if op.Clz? then Rev(a) else a;
    var mask := TrailingMask(maskOp);
    var bits := if op.Cpop? then a else And(mask, Not(maskOp));
    var partial := PrefixCount(bits);
    r := partial[31];
    TrailingCount(maskOp, mask);
    if op.Clz? {
      assert forall j | 32 - r <= j < 32 :: a[j] == maskOp[31 - j];
    }
  }
}
