/**
 * The index-permuting units of the full bit-manipulation configuration: generalised reverse,
 * or-combine, shuffle and unshuffle. Each is a chain of mask-and-shift stages; each is shown to
 * move bits along a simple map of bit indices.
 */
module Shuffle {
  import opened BvBits

  // ---------------------------------------------------------------------------------------------
  // Generalised reverse and or-combine

  function Cross1(x: bv32): bv32 { ((x & 0x5555_5555) << 1) | ((x & 0xaaaa_aaaa) >> 1) }
  function Cross2(x: bv32): bv32 { ((x & 0x3333_3333) << 2) | ((x & 0xcccc_cccc) >> 2) }
  function Cross4(x: bv32): bv32 { ((x & 0x0f0f_0f0f) << 4) | ((x & 0xf0f0_f0f0) >> 4) }
  function Cross8(x: bv32): bv32 { ((x & 0x00ff_00ff) << 8) | ((x & 0xff00_ff00) >> 8) }
  function Cross16(x: bv32): bv32 { ((x & 0x0000_ffff) << 16) | ((x & 0xffff_0000) >> 16) }

  function Either(x: bv32, y: bv32): bv32 { x | y }

  /** One stage's result: or-combine keeps the operand's own bits as well. */
  function Combine(gorc: bool, x: bv32, crossed: bv32): bv32 {
    Either(if gorc then x else 0, crossed)
  }

  predicate Has(k: Index, bit: Index) {
    k & bit != 0
  }

  function Reverse1(gorc: bool, x: bv32, k: Index): bv32 { if Has(k, 1) then Combine(gorc, x, Cross1(x)) else x }
  function Reverse2(gorc: bool, x: bv32, k: Index): bv32 { if Has(k, 2) then Combine(gorc, x, Cross2(x)) else x }
  function Reverse4(gorc: bool, x: bv32, k: Index): bv32 { if Has(k, 4) then Combine(gorc, x, Cross4(x)) else x }
  function Reverse8(gorc: bool, x: bv32, k: Index): bv32 { if Has(k, 8) then Combine(gorc, x, Cross8(x)) else x }
  function Reverse16(gorc: bool, x: bv32, k: Index): bv32 { if Has(k, 16) then Combine(gorc, x, Cross16(x)) else x }

  function Reverse(gorc: bool, x: bv32, k: Index): bv32 {
    Reverse16(gorc, Reverse8(gorc, Reverse4(gorc, Reverse2(gorc, Reverse1(gorc, x, k), k), k), k), k)
  }

  /** i with the bits of k that mask selects inverted. */
  function Turn(i: Index, k: Index, mask: Index): Index {
    i ^ (k & mask)
  }

  lemma CombineBit(gorc: bool, x: bv32, y: bv32, i: Index)
    ensures Bit(Combine(gorc, x, y), i) == ((gorc && Bit(x, i)) || Bit(y, i))
  {
    hide Bit, Either;
    EitherBit(if gorc then x else 0, y, i);
    NoBits(i);
  }

  lemma EitherBit(x: bv32, y: bv32, i: Index)
    ensures Bit(Either(x, y), i) == (Bit(x, i) || Bit(y, i))
  {
  }

  lemma Crosses1(x: bv32, i: Index)
    ensures Bit(Cross1(x), i) == Bit(x, i ^ 1)
  {
  }

  lemma Turn1(i: Index, k: Index)
    ensures Turn(i, k, 1) == if Has(k, 1) then i ^ 1 else i
  {
  }

  lemma Moves1(gorc: bool, x: bv32, k: Index, i: Index)
    ensures Bit(Reverse1(gorc, x, k), i) == (Bit(x, Turn(i, k, 1)) || (gorc && Bit(x, i)))
  {
    hide Bit, Turn, Has, Combine, Cross1;
    Turn1(i, k);
    CombineBit(gorc, x, Cross1(x), i);
    Crosses1(x, i);
  }

  lemma Crosses2(x: bv32, i: Index)
    ensures Bit(Cross2(x), i) == Bit(x, i ^ 2)
  {
  }

  lemma Turn2(i: Index, k: Index)
    ensures Turn(i, k, 2) == if Has(k, 2) then i ^ 2 else i
  {
  }

  lemma Moves2(gorc: bool, x: bv32, k: Index, i: Index)
    ensures Bit(Reverse2(gorc, x, k), i) == (Bit(x, Turn(i, k, 2)) || (gorc && Bit(x, i)))
  {
    hide Bit, Turn, Has, Combine, Cross2;
    Turn2(i, k);
    CombineBit(gorc, x, Cross2(x), i);
    Crosses2(x, i);
  }

  lemma Crosses4(x: bv32, i: Index)
    ensures Bit(Cross4(x), i) == Bit(x, i ^ 4)
  {
  }

  lemma Turn4(i: Index, k: Index)
    ensures Turn(i, k, 4) == if Has(k, 4) then i ^ 4 else i
  {
  }

  lemma Moves4(gorc: bool, x: bv32, k: Index, i: Index)
    ensures Bit(Reverse4(gorc, x, k), i) == (Bit(x, Turn(i, k, 4)) || (gorc && Bit(x, i)))
  {
    hide Bit, Turn, Has, Combine, Cross4;
    Turn4(i, k);
    CombineBit(gorc, x, Cross4(x), i);
    Crosses4(x, i);
  }

  lemma Crosses8(x: bv32, i: Index)
    ensures Bit(Cross8(x), i) == Bit(x, i ^ 8)
  {
  }

  lemma Turn8(i: Index, k: Index)
    ensures Turn(i, k, 8) == if Has(k, 8) then i ^ 8 else i
  {
  }

  lemma Moves8(gorc: bool, x: bv32, k: Index, i: Index)
    ensures Bit(Reverse8(gorc, x, k), i) == (Bit(x, Turn(i, k, 8)) || (gorc && Bit(x, i)))
  {
    hide Bit, Turn, Has, Combine, Cross8;
    Turn8(i, k);
    CombineBit(gorc, x, Cross8(x), i);
    Crosses8(x, i);
  }

  lemma Crosses16(x: bv32, i: Index)
    ensures Bit(Cross16(x), i) == Bit(x, i ^ 16)
  {
  }

  lemma Turn16(i: Index, k: Index)
    ensures Turn(i, k, 16) == if Has(k, 16) then i ^ 16 else i
  {
  }

  lemma Moves16(gorc: bool, x: bv32, k: Index, i: Index)
    ensures Bit(Reverse16(gorc, x, k), i) == (Bit(x, Turn(i, k, 16)) || (gorc && Bit(x, i)))
  {
    hide Bit, Turn, Has, Combine, Cross16;
    Turn16(i, k);
    CombineBit(gorc, x, Cross16(x), i);
    Crosses16(x, i);
  }

  lemma TurnAll(i: Index, k: Index)
    ensures Turn(Turn(Turn(Turn(Turn(i, k, 16), k, 8), k, 4), k, 2), k, 1) == i ^ k
  {
  }

  /** GREV moves bit i to bit i xor k. */
  lemma GrevMoves(x: bv32, k: Index, i: Index)
    ensures Bit(Reverse(false, x, k), i) == Bit(x, i ^ k)
  {
    hide Bit, Turn, Reverse1, Reverse2, Reverse4, Reverse8, Reverse16;
    var a := Reverse1(false, x, k);
    var b := Reverse2(false, a, k);
    var c := Reverse4(false, b, k);
    var d := Reverse8(false, c, k);
    var i16 := Turn(i, k, 16);
    var i8 := Turn(i16, k, 8);
    var i4 := Turn(i8, k, 4);
    var i2 := Turn(i4, k, 2);
    Moves16(false, d, k, i);
    Moves8(false, c, k, i16);
    Moves4(false, b, k, i8);
    Moves2(false, a, k, i4);
    Moves1(false, x, k, i2);
    TurnAll(i, k);
  }

  lemma XorTwice(i: Index, k: Index)
    ensures (i ^ k) ^ k == i
  {
  }

  /** GREV with the same amount is its own inverse. */
  lemma GrevTwice(x: bv32, k: Index)
    ensures Reverse(false, Reverse(false, x, k), k) == x
  {
    hide Bit, Reverse, Difference;
    var y := Reverse(false, Reverse(false, x, k), k);
    if y != x {
      var d := Difference(y, x);
      GrevMoves(Reverse(false, x, k), k, d);
      GrevMoves(x, k, d ^ k);
      XorTwice(d, k);
    }
  }

  /** i and j differ at most in the index bits of k. */
  predicate Near(i: Index, j: Index, k: Index) {
    (i ^ j) & !k == 0
  }

  ghost predicate Gathers(x: bv32, i: Index, k: Index) {
    exists j: Index :: Near(i, j, k) && Bit(x, j)
  }

  function Only(k: Index, mask: Index): Index {
    k & mask
  }

  lemma Near1(i: Index, j: Index, k: Index)
    ensures Near(i, j, Only(k, 1)) <==> Near(i, j, Only(k, 0)) || Near(Turn(i, k, 1), j, Only(k, 0))
  {
  }

  lemma Gathers1(x: bv32, i: Index, k: Index)
    ensures Gathers(x, i, Only(k, 1)) <==> Gathers(x, i, Only(k, 0)) || Gathers(x, Turn(i, k, 1), Only(k, 0))
  {
    hide Near, Only, Turn, Bit;
    forall j: Index
      ensures Near(i, j, Only(k, 1)) <==> Near(i, j, Only(k, 0)) || Near(Turn(i, k, 1), j, Only(k, 0))
    {
      Near1(i, j, k);
    }
  }

  lemma Near3(i: Index, j: Index, k: Index)
    ensures Near(i, j, Only(k, 3)) <==> Near(i, j, Only(k, 1)) || Near(Turn(i, k, 2), j, Only(k, 1))
  {
  }

  lemma Gathers3(x: bv32, i: Index, k: Index)
    ensures Gathers(x, i, Only(k, 3)) <==> Gathers(x, i, Only(k, 1)) || Gathers(x, Turn(i, k, 2), Only(k, 1))
  {
    hide Near, Only, Turn, Bit;
    forall j: Index
      ensures Near(i, j, Only(k, 3)) <==> Near(i, j, Only(k, 1)) || Near(Turn(i, k, 2), j, Only(k, 1))
    {
      Near3(i, j, k);
    }
  }

  lemma Near7(i: Index, j: Index, k: Index)
    ensures Near(i, j, Only(k, 7)) <==> Near(i, j, Only(k, 3)) || Near(Turn(i, k, 4), j, Only(k, 3))
  {
  }

  lemma Gathers7(x: bv32, i: Index, k: Index)
    ensures Gathers(x, i, Only(k, 7)) <==> Gathers(x, i, Only(k, 3)) || Gathers(x, Turn(i, k, 4), Only(k, 3))
  {
    hide Near, Only, Turn, Bit;
    forall j: Index
      ensures Near(i, j, Only(k, 7)) <==> Near(i, j, Only(k, 3)) || Near(Turn(i, k, 4), j, Only(k, 3))
    {
      Near7(i, j, k);
    }
  }

  lemma Near15(i: Index, j: Index, k: Index)
    ensures Near(i, j, Only(k, 15)) <==> Near(i, j, Only(k, 7)) || Near(Turn(i, k, 8), j, Only(k, 7))
  {
  }

  lemma Gathers15(x: bv32, i: Index, k: Index)
    ensures Gathers(x, i, Only(k, 15)) <==> Gathers(x, i, Only(k, 7)) || Gathers(x, Turn(i, k, 8), Only(k, 7))
  {
    hide Near, Only, Turn, Bit;
    forall j: Index
      ensures Near(i, j, Only(k, 15)) <==> Near(i, j, Only(k, 7)) || Near(Turn(i, k, 8), j, Only(k, 7))
    {
      Near15(i, j, k);
    }
  }

  lemma Near31(i: Index, j: Index, k: Index)
    ensures Near(i, j, Only(k, 31)) <==> Near(i, j, Only(k, 15)) || Near(Turn(i, k, 16), j, Only(k, 15))
  {
  }

  lemma Gathers31(x: bv32, i: Index, k: Index)
    ensures Gathers(x, i, Only(k, 31)) <==> Gathers(x, i, Only(k, 15)) || Gathers(x, Turn(i, k, 16), Only(k, 15))
  {
    hide Near, Only, Turn, Bit;
    forall j: Index
      ensures Near(i, j, Only(k, 31)) <==> Near(i, j, Only(k, 15)) || Near(Turn(i, k, 16), j, Only(k, 15))
    {
      Near31(i, j, k);
    }
  }

  lemma GathersNone(x: bv32, i: Index, k: Index)
    ensures Gathers(x, i, Only(k, 0)) <==> Bit(x, i)
  {
    hide Bit;
    assert Near(i, i, Only(k, 0));
  }

  lemma Combines1(x: bv32, k: Index, i: Index)
    ensures Bit(Reverse1(true, x, k), i) <==> Gathers(x, i, Only(k, 1))
  {
    hide Bit, Turn, Only, Gathers, Reverse1, Reverse2, Reverse4, Reverse8, Reverse16;
    Gathers1(x, i, k);
    Moves1(true, x, k, i);
    GathersNone(x, i, k);
    GathersNone(x, Turn(i, k, 1), k);
  }

  lemma Combines3(x: bv32, k: Index, i: Index)
    ensures Bit(Reverse2(true, Reverse1(true, x, k), k), i) <==> Gathers(x, i, Only(k, 3))
  {
    hide Bit, Turn, Only, Gathers, Reverse1, Reverse2, Reverse4, Reverse8, Reverse16;
    Gathers3(x, i, k);
    Moves2(true, Reverse1(true, x, k), k, i);
    Combines1(x, k, i);
    Combines1(x, k, Turn(i, k, 2));
  }

  lemma Combines7(x: bv32, k: Index, i: Index)
    ensures Bit(Reverse4(true, Reverse2(true, Reverse1(true, x, k), k), k), i) <==> Gathers(x, i, Only(k, 7))
  {
    hide Bit, Turn, Only, Gathers, Reverse1, Reverse2, Reverse4, Reverse8, Reverse16;
    Gathers7(x, i, k);
    Moves4(true, Reverse2(true, Reverse1(true, x, k), k), k, i);
    Combines3(x, k, i);
    Combines3(x, k, Turn(i, k, 4));
  }

  lemma Combines15(x: bv32, k: Index, i: Index)
    ensures Bit(Reverse8(true, Reverse4(true, Reverse2(true, Reverse1(true, x, k), k), k), k), i)
            <==> Gathers(x, i, Only(k, 15))
  {
    hide Bit, Turn, Only, Gathers, Reverse1, Reverse2, Reverse4, Reverse8, Reverse16;
    Gathers15(x, i, k);
    Moves8(true, Reverse4(true, Reverse2(true, Reverse1(true, x, k), k), k), k, i);
    Combines7(x, k, i);
    Combines7(x, k, Turn(i, k, 8));
  }

  lemma Combines31(x: bv32, k: Index, i: Index)
    ensures Bit(Reverse16(true, Reverse8(true, Reverse4(true, Reverse2(true, Reverse1(true, x, k), k), k), k), k), i)
            <==> Gathers(x, i, Only(k, 31))
  {
    hide Bit, Turn, Only, Gathers, Reverse1, Reverse2, Reverse4, Reverse8, Reverse16;
    Gathers31(x, i, k);
    Moves16(true, Reverse8(true, Reverse4(true, Reverse2(true, Reverse1(true, x, k), k), k), k), k, i);
    Combines15(x, k, i);
    Combines15(x, k, Turn(i, k, 16));
  }

  lemma OnlyAll(k: Index)
    ensures Only(k, 31) == k
  {
  }

  /** GORC sets bit i when some bit whose index differs from i only within k is set. */
  lemma GorcGathers(x: bv32, k: Index, i: Index)
    ensures Bit(Reverse(true, x, k), i) <==> exists j: Index :: Near(i, j, k) && Bit(x, j)
  {
    hide Bit, Only, Near, Reverse1, Reverse2, Reverse4, Reverse8, Reverse16;
    Combines31(x, k, i);
    OnlyAll(k);
  }

  /** Every bit of r comes from the bit of x whose index differs by k. */
  ghost predicate Turned(x: bv32, r: bv32, k: Index) {
    forall i: Index :: Bit(r, i) == Bit(x, i ^ k)
  }

  /** Every bit of r gathers the bits of x whose indices differ from its own only within k. */
  ghost predicate Gathered(x: bv32, r: bv32, k: Index) {
    forall i: Index :: Bit(r, i) <==> Gathers(x, i, k)
  }

  lemma ReverseMoves(gorc: bool, x: bv32, k: Index)
    ensures if gorc then Gathered(x, Reverse(true, x, k), k) else Turned(x, Reverse(false, x, k), k)
  {
    hide Bit, Reverse, Near;
    forall i: Index
      ensures if gorc then Bit(Reverse(true, x, k), i) <==> Gathers(x, i, k)
              else Bit(Reverse(false, x, k), i) == Bit(x, i ^ k)
    {
      if gorc {
        GorcGathers(x, k, i);
      } else {
        GrevMoves(x, k, i);
      }
    }
  }

  /**
   * The reverse unit, one stage per bit of the amount, low to high. GREV takes bit i from bit
   * i xor k; GORC gathers every bit whose index differs from i only within k.
   */
  method ReverseUnit(gorc: bool, x: bv32, k: Index) returns (r: bv32)
    ensures r == Reverse(gorc, x, k)
    ensures if gorc then Gathered(x, r, k) else Turned(x, r, k)
  {
    hide Combine, Cross1, Cross2, Cross4, Cross8, Cross16, Has, Turned, Gathered;
    ReverseMoves(gorc, x, k);
    r := x;
    if Has(k, 1) {
      r := Combine(gorc, r, Cross1(r));
    }
    if Has(k, 2) {
      r := Combine(gorc, r, Cross2(r));
    }
    if Has(k, 4) {
      r := Combine(gorc, r, Cross4(r));
    }
    if Has(k, 8) {
      r := Combine(gorc, r, Cross8(r));
    }
    if Has(k, 16) {
      r := Combine(gorc, r, Cross16(r));
    }
  }

  // ---------------------------------------------------------------------------------------------
  // Shuffle and unshuffle

  function Stage8(x: bv32): bv32 {
    (x & !(0x00ff_0000 | 0x0000_ff00)) | ((x << 8) & 0x00ff_0000) | ((x >> 8) & 0x0000_ff00)
  }

  function Stage4(x: bv32): bv32 {
    (x & !(0x0f00_0f00 | 0x00f0_00f0)) | ((x << 4) & 0x0f00_0f00) | ((x >> 4) & 0x00f0_00f0)
  }

  function Stage2(x: bv32): bv32 {
    (x & !(0x3030_3030 | 0x0c0c_0c0c)) | ((x << 2) & 0x3030_3030) | ((x >> 2) & 0x0c0c_0c0c)
  }

  function Stage1(x: bv32): bv32 {
    (x & !(0x4444_4444 | 0x2222_2222)) | ((x << 1) & 0x4444_4444) | ((x >> 1) & 0x2222_2222)
  }

  function Flip(x: bv32): bv32 {
    (x & 0x8822_4411)
    | ((x << 6) & 0x2200_1100) | ((x >> 6) & 0x0088_0044)
    | ((x << 9) & 0x0044_0000) | ((x >> 9) & 0x0000_2200)
    | ((x << 15) & 0x4411_0000) | ((x >> 15) & 0x0000_8822)
    | ((x << 21) & 0x1100_0000) | ((x >> 21) & 0x0000_0088)
  }

  /** The shuffle mode, s3 selecting the outermost stage. */
  datatype Mode = Mode(s3: bool, s2: bool, s1: bool, s0: bool)

  const ALL := Mode(true, true, true, true)

  function Backwards(m: Mode): Mode {
    Mode(m.s0, m.s1, m.s2, m.s3)
  }

  function If8(on: bool, x: bv32): bv32 { if on then Stage8(x) else x }
  function If4(on: bool, x: bv32): bv32 { if on then Stage4(x) else x }
  function If2(on: bool, x: bv32): bv32 { if on then Stage2(x) else x }
  function If1(on: bool, x: bv32): bv32 { if on then Stage1(x) else x }

  function Stages(x: bv32, m: Mode): bv32 {
    If1(m.s0, If2(m.s1, If4(m.s2, If8(m.s3, x))))
  }

  function Shfl(x: bv32, m: Mode): bv32 {
    Stages(x, m)
  }

  function Unshfl(x: bv32, m: Mode): bv32 {
    Flip(Stages(Flip(x), Backwards(m)))
  }

  lemma FlipTwice(x: bv32)
    ensures Flip(Flip(x)) == x
  {
  }

  lemma Twice8(x: bv32)
    ensures Stage8(Stage8(x)) == x
  {
  }

  /** Between flips a stage becomes its mirror image. */
  lemma Mirror8(on: bool, x: bv32)
    ensures If8(on, Flip(x)) == Flip(If1(on, x))
    ensures If8(on, If8(on, x)) == x
  {
    hide Flip, Stage8, Stage1;
    FlipStage8(x);
    Twice8(x);
  }

  lemma FlipStage8(x: bv32)
    ensures Stage8(Flip(x)) == Flip(Stage1(x))
  {
  }

  lemma Twice4(x: bv32)
    ensures Stage4(Stage4(x)) == x
  {
  }

  /** Between flips a stage becomes its mirror image. */
  lemma Mirror4(on: bool, x: bv32)
    ensures If4(on, Flip(x)) == Flip(If2(on, x))
    ensures If4(on, If4(on, x)) == x
  {
    hide Flip, Stage4, Stage2;
    FlipStage4(x);
    Twice4(x);
  }

  lemma FlipStage4(x: bv32)
    ensures Stage4(Flip(x)) == Flip(Stage2(x))
  {
  }

  lemma Twice2(x: bv32)
    ensures Stage2(Stage2(x)) == x
  {
  }

  /** Between flips a stage becomes its mirror image. */
  lemma Mirror2(on: bool, x: bv32)
    ensures If2(on, Flip(x)) == Flip(If4(on, x))
    ensures If2(on, If2(on, x)) == x
  {
    hide Flip, Stage2, Stage4;
    FlipStage2(x);
    Twice2(x);
  }

  lemma FlipStage2(x: bv32)
    ensures Stage2(Flip(x)) == Flip(Stage4(x))
  {
  }

  lemma Twice1(x: bv32)
    ensures Stage1(Stage1(x)) == x
  {
  }

  /** Between flips a stage becomes its mirror image. */
  lemma Mirror1(on: bool, x: bv32)
    ensures If1(on, Flip(x)) == Flip(If8(on, x))
    ensures If1(on, If1(on, x)) == x
  {
    hide Flip, Stage1, Stage8;
    FlipStage1(x);
    Twice1(x);
  }

  lemma FlipStage1(x: bv32)
    ensures Stage1(Flip(x)) == Flip(Stage8(x))
  {
  }

  /** Unshuffling runs the shuffle stages backwards. */
  lemma UnshflIsReverse(x: bv32, m: Mode)
    ensures Unshfl(x, m) == If8(m.s3, If4(m.s2, If2(m.s1, If1(m.s0, x))))
  {
    hide Flip, If1, If2, If4, If8;
    var a := If1(m.s0, x);
    var b := If2(m.s1, a);
    var c := If4(m.s2, b);
    var d := If8(m.s3, c);
    Mirror8(m.s0, x);
    Mirror4(m.s1, a);
    Mirror2(m.s2, b);
    Mirror1(m.s3, c);
    FlipTwice(d);
  }

  /** UNSHFL undoes SHFL, and SHFL undoes UNSHFL, for every operand and mode. */
  lemma ShuffleInverse(x: bv32, m: Mode)
    ensures Unshfl(Shfl(x, m), m) == x
    ensures Shfl(Unshfl(x, m), m) == x
  {
    hide If1, If2, If4, If8, Unshfl;
    UnshflIsReverse(Shfl(x, m), m);
    var a := If8(m.s3, x);
    var b := If4(m.s2, a);
    var c := If2(m.s1, b);
    Mirror1(m.s0, c);
    Mirror2(m.s1, b);
    Mirror4(m.s2, a);
    Mirror8(m.s3, x);
    UnshflIsReverse(x, m);
    var p := If1(m.s0, x);
    var q := If2(m.s1, p);
    var t := If4(m.s2, q);
    Mirror8(m.s3, t);
    Mirror4(m.s2, q);
    Mirror2(m.s1, p);
    Mirror1(m.s0, x);
  }

  function Swap43(i: Index): Index { (i & 7) | ((i & 8) << 1) | ((i & 16) >> 1) }
  function Swap32(i: Index): Index { (i & 19) | ((i & 4) << 1) | ((i & 8) >> 1) }
  function Swap21(i: Index): Index { (i & 25) | ((i & 2) << 1) | ((i & 4) >> 1) }
  function Swap10(i: Index): Index { (i & 28) | ((i & 1) << 1) | ((i & 2) >> 1) }

  /** Each stage exchanges two neighbouring bits of the index. */
  lemma Stage8Moves(x: bv32, i: Index)
    ensures Bit(Stage8(x), i) == Bit(x, Swap43(i))
  {
    assert Swap43(i) == if i & 24 == 8 then i + 8 else if i & 24 == 16 then i - 8 else i;
  }

  lemma Stage4Moves(x: bv32, i: Index)
    ensures Bit(Stage4(x), i) == Bit(x, Swap32(i))
  {
  }

  lemma Stage2Moves(x: bv32, i: Index)
    ensures Bit(Stage2(x), i) == Bit(x, Swap21(i))
  {
  }

  lemma Stage1Moves(x: bv32, i: Index)
    ensures Bit(Stage1(x), i) == Bit(x, Swap10(i))
  {
  }

  /** Where bit i of a shuffled word comes from. */
  function Origin(i: Index, m: Mode): Index {
    var a := if m.s0 then Swap10(i) else i;
    var b := if m.s1 then Swap21(a) else a;
    var c := if m.s2 then Swap32(b) else b;
    if m.s3 then Swap43(c) else c
  }

  lemma ShflMoves(x: bv32, m: Mode, i: Index)
    ensures Bit(Shfl(x, m), i) == Bit(x, Origin(i, m))
  {
    hide Bit, Stage8, Stage4, Stage2, Stage1, Swap43, Swap32, Swap21, Swap10;
    var a := If8(m.s3, x);
    var b := If4(m.s2, a);
    var c := If2(m.s1, b);
    var i1 := if m.s0 then Swap10(i) else i;
    var i2 := if m.s1 then Swap21(i1) else i1;
    var i3 := if m.s2 then Swap32(i2) else i2;
    Stage1Moves(c, i);
    Stage2Moves(b, i1);
    Stage4Moves(a, i2);
    Stage8Moves(x, i3);
  }

  /** With every stage on, SHFL interleaves the two halves: even bits from the low half, odd from the high. */
  lemma ShflZips(x: bv32, i: Index)
    ensures Bit(Shfl(x, ALL), i) == Bit(x, (i >> 1) | ((i & 1) << 4))
  {
    hide Bit, Shfl;
    ShflMoves(x, ALL, i);
    RotatedIndex(i);
  }

  /** One stage alone exchanges the two quarters in the middle of every block of 32, 16, 8 or 4 bits. */
  lemma SingleStages(x: bv32, i: Index)
    ensures Bit(Shfl(x, Mode(true, false, false, false)), i)
            == Bit(x, if i & 24 == 8 then i + 8 else if i & 24 == 16 then i - 8 else i)
    ensures Bit(Shfl(x, Mode(false, true, false, false)), i)
            == Bit(x, if i & 12 == 4 then i + 4 else if i & 12 == 8 then i - 4 else i)
    ensures Bit(Shfl(x, Mode(false, false, true, false)), i)
            == Bit(x, if i & 6 == 2 then i + 2 else if i & 6 == 4 then i - 2 else i)
    ensures Bit(Shfl(x, Mode(false, false, false, true)), i)
            == Bit(x, if i & 3 == 1 then i + 1 else if i & 3 == 2 then i - 1 else i)
  {
    hide Bit, Shfl, Swap43, Swap32, Swap21, Swap10;
    ShflMoves(x, Mode(true, false, false, false), i);
    ShflMoves(x, Mode(false, true, false, false), i);
    ShflMoves(x, Mode(false, false, true, false), i);
    ShflMoves(x, Mode(false, false, false, true), i);
    MiddleQuarters(i);
  }

  lemma MiddleQuarters(i: Index)
    ensures Swap43(i) == if i & 24 == 8 then i + 8 else if i & 24 == 16 then i - 8 else i
    ensures Swap32(i) == if i & 12 == 4 then i + 4 else if i & 12 == 8 then i - 4 else i
    ensures Swap21(i) == if i & 6 == 2 then i + 2 else if i & 6 == 4 then i - 2 else i
    ensures Swap10(i) == if i & 3 == 1 then i + 1 else if i & 3 == 2 then i - 1 else i
  {
  }

  lemma RotatedIndex(i: Index)
    ensures Swap43(Swap32(Swap21(Swap10(i)))) == (i >> 1) | ((i & 1) << 4)
  {
  }

  /** SHFL brings bit i from its origin, UNSHFL takes it back there. */
  lemma UnitMoves(unshuffle: bool, x: bv32, m: Mode)
    ensures if unshuffle then forall i: Index :: Bit(Unshfl(x, m), Origin(i, m)) == Bit(x, i)
            else forall i: Index :: Bit(Shfl(x, m), i) == Bit(x, Origin(i, m))
  {
    hide Bit, Origin, Shfl, Unshfl;
    ShuffleInverse(x, m);
    forall i: Index
      ensures if unshuffle then Bit(Unshfl(x, m), Origin(i, m)) == Bit(x, i)
              else Bit(Shfl(x, m), i) == Bit(x, Origin(i, m))
    {
      ShflMoves(x, m, i);
      ShflMoves(Unshfl(x, m), m, i);
    }
  }

  /**
   * The shuffle unit: amount bits in mode order for SHFL, mirrored and between flips for UNSHFL.
   * SHFL brings every bit from its origin and UNSHFL takes it back.
   */
  method ShuffleUnit(unshuffle: bool, x: bv32, amount: Mode) returns (r: bv32)
    ensures r == if unshuffle then Unshfl(x, amount) else Shfl(x, amount)
    ensures if unshuffle then forall i: Index :: Bit(r, Origin(i, amount)) == Bit(x, i)
            else forall i: Index :: Bit(r, i) == Bit(x, Origin(i, amount))
  {
    UnitMoves(unshuffle, x, amount);
    hide Flip, Stage8, Stage4, Stage2, Stage1, Bit, Origin;
    r := x;
    var mode := amount;
    if unshuffle {
      mode := Mode(amount.s0, amount.s1, amount.s2, amount.s3);
      r := Flip(r);
    }
    if mode.s3 {
      r := Stage8(r);
    }
    if mode.s2 {
      r := Stage4(r);
    }
    if mode.s1 {
      r := Stage2(r);
    }
    if mode.s0 {
      r := Stage1(r);
    }
    if unshuffle {
      r := Flip(r);
    }
  }
}
