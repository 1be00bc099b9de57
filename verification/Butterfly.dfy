/**
 * Bit deposit and bit extract (BDECOMPRESS, BCOMPRESS): a butterfly network, and the same
 * network run backwards, steered by rotate-and-complement masks that are made from prefix
 * counts. The counts travel from the first cycle to the second through two 32-bit registers.
 */
module Butterfly {
  import opened Binary
  import opened Bits
  import opened PrefixCounter

  // ---------- The one-line definitions ----------

  /** The low bits of v, in order, at the set positions of mask. */
  function Deposit(v: Word, mask: Word): Word {
    seq(32, p requires 0 <= p < 32 => mask[p] && v[Count(mask, p)])
  }

  /** The bits of v at the set positions of mask, in order, at the bottom. */
  function Extract(v: Word, mask: Word): Word {
    seq(32, q requires 0 <= q < 32 => exists p | 0 <= p < 32 :: mask[p] && Count(mask, p) == q && v[p])
  }

  // ---------- The intermediate registers ----------

  predicate BitOf(c: nat, weight: nat)
    requires weight > 0
  {
    c / weight % 2 == 1
  }

  function PackLsb(c: seq<nat>): Word
    requires |c| == 32
  {
    seq(32, i requires 0 <= i < 32 => BitOf(c[i], 1))
  }

  function PackMsb(c: seq<nat>): Word
    requires |c| == 32
  {
    seq(32, i requires 0 <= i < 32 =>
      if i < 16 then BitOf(c[2 * i + 1], 2)
      else if i < 24 then BitOf(c[4 * (i - 16) + 3], 4)
      else if i < 28 then BitOf(c[8 * (i - 24) + 7], 8)
      else if i < 30 then BitOf(c[16 * (i - 28) + 15], 16)
      else if i == 30 then BitOf(c[31], 32)
      else false)
  }

  /** Entry i of the counts as the second cycle sees them; bits that were not stored read zero. */
  function UnpackEntry(lsb: Word, msb: Word, i: nat): nat
    requires i < 32
  {
    Weigh(lsb[i], 1)
    + (if i % 2 == 1 then Weigh(msb[i / 2], 2) else 0)
    + (if i % 4 == 3 then Weigh(msb[16 + i / 4], 4) else 0)
    + (if i % 8 == 7 then Weigh(msb[24 + i / 8], 8) else 0)
    + (if i % 16 == 15 then Weigh(msb[28 + i / 16], 16) else 0)
    + (if i == 31 then Weigh(msb[30], 32) else 0)
  }

  /** bitcnt_partial_q. */
  function Unpack(lsb: Word, msb: Word): (c: seq<nat>)
    ensures |c| == 32
  {
    seq(32, i requires 0 <= i < 32 => UnpackEntry(lsb, msb, i))
  }

  /** Segments of width 2 * n tile the word. */
  ghost predicate HalfWidth(n: nat) {
    n > 0 && Rem(32, 2 * n) == 0
  }

  /** Entry i comes back with the bits whose weight divides i + 1. */
  ghost function Stored(c: nat, i: nat): nat {
    Weigh(BitOf(c, 1), 1)
    + (if i % 2 == 1 then Weigh(BitOf(c, 2), 2) else 0)
    + (if i % 4 == 3 then Weigh(BitOf(c, 4), 4) else 0)
    + (if i % 8 == 7 then Weigh(BitOf(c, 8), 8) else 0)
    + (if i % 16 == 15 then Weigh(BitOf(c, 16), 16) else 0)
    + (if i == 31 then Weigh(BitOf(c, 32), 32) else 0)
  }

  lemma PackedAt(c: seq<nat>, i: nat)
    requires |c| == 32 && i < 32
    ensures i % 2 == 1 ==> PackMsb(c)[i / 2] == BitOf(c[i], 2)
    ensures i % 4 == 3 ==> PackMsb(c)[16 + i / 4] == BitOf(c[i], 4)
    ensures i % 8 == 7 ==> PackMsb(c)[24 + i / 8] == BitOf(c[i], 8)
    ensures i % 16 == 15 ==> PackMsb(c)[28 + i / 16] == BitOf(c[i], 16)
    ensures PackMsb(c)[30] == BitOf(c[31], 32) && !PackMsb(c)[31]
  {
    assert i % 2 == 1 ==> 2 * (i / 2) + 1 == i;
    assert i % 4 == 3 ==> 4 * (16 + i / 4 - 16) + 3 == i;
    assert i % 8 == 7 ==> 8 * (24 + i / 8 - 24) + 7 == i;
    assert i % 16 == 15 ==> 16 * (28 + i / 16 - 28) + 15 == i;
  }

  lemma UnpackedEntry(c: seq<nat>, i: nat)
    requires |c| == 32 && i < 32
    ensures UnpackEntry(PackLsb(c), PackMsb(c), i) == Stored(c[i], i)
  {
    PackedAt(c, i);
  }

  lemma LowDigits(c: nat)
    ensures c % 2 == Weigh(BitOf(c, 1), 1)
    ensures c % 4 == c % 2 + Weigh(BitOf(c, 2), 2)
    ensures c % 8 == c % 4 + Weigh(BitOf(c, 4), 4)
    ensures c % 16 == c % 8 + Weigh(BitOf(c, 8), 8)
    ensures c % 32 == c % 16 + Weigh(BitOf(c, 16), 16)
    ensures c % 64 == c % 32 + Weigh(BitOf(c, 32), 32)
  {
    DoubleModulus(c, 1);
    DoubleModulus(c, 2);
    DoubleModulus(c, 4);
    DoubleModulus(c, 8);
    DoubleModulus(c, 16);
    DoubleModulus(c, 32);
  }

  lemma Keep1(c: nat, i: nat)
    requires i < 32
    ensures Stored(c, i) % 2 == c % 2
  {
    LowDigits(c);
  }

  lemma Keep2(c: nat, i: nat)
    requires i < 32 && (i + 1) % 2 == 0
    ensures Stored(c, i) % 4 == c % 4
  {
    LowDigits(c);
  }

  lemma Keep4(c: nat, i: nat)
    requires i < 32 && (i + 1) % 4 == 0
    ensures Stored(c, i) % 8 == c % 8
  {
    LowDigits(c);
  }

  lemma Keep8(c: nat, i: nat)
    requires i < 32 && (i + 1) % 8 == 0
    ensures Stored(c, i) % 16 == c % 16
  {
    LowDigits(c);
  }

  lemma Keep16(c: nat, i: nat)
    requires i < 32 && (i + 1) % 16 == 0
    ensures Stored(c, i) % 32 == c % 32
  {
    LowDigits(c);
  }

  /** The registers keep, at the middle of every segment of width 2 * n, the count modulo 2 * n. */
  lemma Survival(c: seq<nat>, i: nat, n: nat)
    requires |c| == 32 && i < 32 && (n == 1 || n == 2 || n == 4 || n == 8 || n == 16) && Rem(i + 1, n) == 0
    ensures Rem(Unpack(PackLsb(c), PackMsb(c))[i], 2 * n) == Rem(c[i], 2 * n)
  {
    UnpackedEntry(c, i);
    var s := Stored(c[i], i);
    if n == 1 {
      Keep1(c[i], i);
      RemIsMod(s, 2);
      RemIsMod(c[i], 2);
    } else if n == 2 {
      RemIsMod(i + 1, 2);
      Keep2(c[i], i);
      RemIsMod(s, 4);
      RemIsMod(c[i], 4);
    } else if n == 4 {
      RemIsMod(i + 1, 4);
      Keep4(c[i], i);
      RemIsMod(s, 8);
      RemIsMod(c[i], 8);
    } else if n == 8 {
      RemIsMod(i + 1, 8);
      Keep8(c[i], i);
      RemIsMod(s, 16);
      RemIsMod(c[i], 16);
    } else {
      RemIsMod(i + 1, 16);
      Keep16(c[i], i);
      RemIsMod(s, 32);
      RemIsMod(c[i], 32);
    }
  }

  // ---------- The control masks and the network ----------

  /** First position of the segment of width 2 * n that holds p. */
  function Base(p: nat, n: nat): nat
    requires n > 0
  {
    p - Rem(p, 2 * n)
  }

  /** A segment lies inside the word. */
  lemma SegmentFits(p: nat, n: nat)
    requires p < 32 && HalfWidth(n)
    ensures Base(p, n) + 2 * n <= 32 && Rem(Base(p, n), 2 * n) == 0
  {
    RemBase(p, 2 * n);
    var o := Base(p, n);
    if o + 2 * n > 32 {
      RemShift(o, 32 - o, 2 * n);
      assert false;
    }
  }

  /** lrotc_stage: per segment, n ones shifted left by the count at the middle, cut to 2 * n bits. */
  function Lrotc(q: seq<nat>, n: nat): Word
    requires |q| == 32 && HalfWidth(n)
  {
    seq(32, p requires 0 <= p < 32 =>
      (SegmentFits(p, n); var r := Rem(q[Base(p, n) + n - 1], 2 * n); r <= Rem(p, 2 * n) < r + n))
  }

  /** butterfly_mask_l: the upper half of each segment takes the complement of its own rotated bits. */
  function MaskL(q: seq<nat>, n: nat): Word
    requires |q| == 32 && HalfWidth(n)
  {
    seq(32, p requires 0 <= p < 32 => Rem(p, 2 * n) >= n && !Lrotc(q, n)[p])
  }

  /** butterfly_mask_r: the lower half of each segment copies the mask of the upper half. */
  function MaskR(q: seq<nat>, n: nat): Word
    requires |q| == 32 && HalfWidth(n)
  {
    seq(32, p requires 0 <= p < 32 =>
      Rem(p, 2 * n) < n && (SegmentFits(p, n); !Lrotc(q, n)[p + n]))
  }

  function SwapMasked(x: Word, l: Word, r: Word, n: nat): Word {
    Or(Or(And(x, Not(Or(l, r))), Shr(And(x, l), n)), Shl(And(x, r), n))
  }

  lemma SwapMaskedBit(x: Word, l: Word, r: Word, n: nat, p: nat)
    requires p < 32
    ensures SwapMasked(x, l, r, n)[p] <==>
            || (x[p] && !l[p] && !r[p])
            || (p + n < 32 && x[p + n] && l[p + n])
            || (p >= n && x[p - n] && r[p - n])
  {
  }

  /** One stage: masked bits swap with their partner n positions away. */
  function Stage(x: Word, q: seq<nat>, n: nat): Word
    requires |q| == 32 && HalfWidth(n)
  {
    SwapMasked(x, MaskL(q, n), MaskR(q, n), n)
  }

  /** Whether the pair at distance j from the start of the halves of p's segment is exchanged. */
  ghost predicate Swaps(q: seq<nat>, n: nat, p: nat)
    requires |q| == 32 && HalfWidth(n) && p < 32
  {
    SegmentFits(p, n);
    var t := Rem(p, 2 * n);
    !Lrotc(q, n)[Base(p, n) + if t < n then t + n else t]
  }

  /** The two masks select the pairs that are exchanged. */
  lemma MasksAt(q: seq<nat>, n: nat, p: nat)
    requires |q| == 32 && HalfWidth(n) && p < 32
    ensures MaskL(q, n)[p] <==> Rem(p, 2 * n) >= n && Swaps(q, n, p)
    ensures MaskR(q, n)[p] <==> Rem(p, 2 * n) < n && Swaps(q, n, p)
  {
    hide Rem;
    SegmentFits(p, n);
    var t := Rem(p, 2 * n);
    assert p == Base(p, n) + t;
  }

  /** Both members of a pair agree on the exchange. */
  lemma PairsAgree(q: seq<nat>, n: nat, p: nat)
    requires |q| == 32 && HalfWidth(n) && p < 32
    ensures var t := Rem(p, 2 * n);
            && (t < n ==> p + n < 32 && Rem(p + n, 2 * n) == t + n && Swaps(q, n, p + n) == Swaps(q, n, p))
            && (t >= n ==> p >= n && Rem(p - n, 2 * n) == t - n && Swaps(q, n, p - n) == Swaps(q, n, p))
  {
    hide Rem;
    SegmentFits(p, n);
    var t := Rem(p, 2 * n);
    Neighbour(p, n, if t < n then t + n else t - n);
  }

  /** The position a stage reads to fill position p. */
  ghost function Source(q: seq<nat>, n: nat, p: nat): (s: nat)
    requires |q| == 32 && HalfWidth(n) && p < 32
    ensures s < 32
  {
    SegmentFits(p, n);
    if !Swaps(q, n, p) then p else if Rem(p, 2 * n) < n then p + n else p - n
  }

  /** A stage moves bits: position p receives the bit at Source(p). */
  lemma StageMoves(x: Word, q: seq<nat>, n: nat, p: nat)
    requires |q| == 32 && HalfWidth(n) && p < 32
    ensures Stage(x, q, n)[p] == x[Source(q, n, p)]
  {
    hide Rem, MaskL, MaskR, Swaps, SwapMasked;
    SwapMaskedBit(x, MaskL(q, n), MaskR(q, n), n, p);
    MasksAt(q, n, p);
    PairsAgree(q, n, p);
    if Rem(p, 2 * n) < n {
      MasksAt(q, n, p + n);
      if p >= n {
        NotUpper(p, n);
        MasksAt(q, n, p - n);
      }
    } else {
      MasksAt(q, n, p - n);
      if p + n < 32 {
        NotLower(p, n);
        MasksAt(q, n, p + n);
      }
    }
  }

  /** Doing a stage twice changes nothing. */
  lemma SourceInvolution(q: seq<nat>, n: nat, p: nat)
    requires |q| == 32 && HalfWidth(n) && p < 32
    ensures Source(q, n, Source(q, n, p)) == p
  {
    hide Rem;
    PairsAgree(q, n, p);
  }

  /** Positions of one segment have the same base. */
  lemma Neighbour(p: nat, n: nat, t: nat)
    requires n > 0 && t < 2 * n
    ensures Rem(Base(p, n) + t, 2 * n) == t && Base(Base(p, n) + t, n) == Base(p, n)
  {
    RemBase(p, 2 * n);
    RemShift(Base(p, n), t, 2 * n);
  }

  /** n below a lower half lies an upper half, and n above an upper half lies a lower half. */
  lemma NotUpper(p: nat, n: nat)
    requires n > 0 && p >= n && Rem(p, 2 * n) < n
    ensures Rem(p - n, 2 * n) >= n
  {
    RemBase(p, 2 * n);
    var o := Base(p, n);
    if o == 0 {
      assert false;
    }
    assert Rem(o - 2 * n, 2 * n) == 0;
    RemShift(o - 2 * n, n + Rem(p, 2 * n), 2 * n);
  }

  lemma NotLower(p: nat, n: nat)
    requires n > 0 && Rem(p, 2 * n) >= n
    ensures Rem(p + n, 2 * n) < n
  {
    RemBase(p, 2 * n);
    var o := Base(p, n);
    RemShift(o, Rem(p, 2 * n) + n, 2 * n);
  }

  // ---------- Where the network sends each rank ----------

  ghost predicate SteersAt(q: seq<nat>, mask: Word, n: nat, o: nat)
    requires |q| == 32 && n > 0 && o + 2 * n <= 32
  {
    Rem(q[o + n - 1], 2 * n) == Rem(Count(mask, o + n), 2 * n)
  }

  /** The counts that steer the network: every segment's middle entry, modulo the segment width. */
  ghost predicate Steers(q: seq<nat>, mask: Word, n: nat) {
    && |q| == 32 && HalfWidth(n)
    && forall o: nat | o + 2 * n <= 32 && Rem(o, 2 * n) == 0 :: SteersAt(q, mask, n, o)
  }

  /** Rotation by c: the partner of remainder j is exchanged exactly when rank r sits in the other half. */
  lemma RotateAndComplement(n: nat, c: nat, r: nat)
    requires n > 0
    ensures var rot, j := Rem(c, 2 * n), Rem(r, n);
            var kept := rot <= j + n < rot + n;
            && (r < c <= r + n ==> Rem(r, 2 * n) == if kept then j else j + n)
            && (c <= r < c + n ==> Rem(r, 2 * n) == if kept then j + n else j)
  {
    RemDouble(r, n);
    if r < c <= r + n {
      RemAhead(r, c - r, 2 * n);
    }
    if c <= r < c + n {
      RemAhead(c, r - c, 2 * n);
    }
  }

  /** Stepping ahead by less than the modulus wraps at most once. */
  lemma RemAhead(c: nat, d: nat, m: nat)
    requires m > 0 && d < m
    ensures Rem(c + d, m) == if Rem(c, m) + d < m then Rem(c, m) + d else Rem(c, m) + d - m
  {
    RemBase(c, m);
    RemShift(c - Rem(c, m), Rem(c, m) + d, m);
  }

  /** Where rank Count(mask, p) waits once the stages below segment width w are undone. */
  ghost function Waiting(mask: Word, p: nat, w: nat): nat
    requires p < 32 && w > 0
  {
    RemBase(p, w);
    p - Rem(p, w) + Rem(Count(mask, p), w)
  }

  /** A set bit in the lower half ranks below the count at the middle; one in the upper half does not. */
  lemma RankWithinSegment(mask: Word, p: nat, n: nat)
    requires p < 32 && mask[p] && HalfWidth(n)
    ensures Base(p, n) + n <= 32
    ensures var r, c := Count(mask, p), Count(mask, Base(p, n) + n);
            if Rem(p, 2 * n) < n then r < c <= r + n else c <= r < c + n
  {
    SegmentFits(p, n);
    var o := Base(p, n);
    if Rem(p, 2 * n) < n {
      CountWindow(mask, p + 1, o + n);
    } else {
      CountWindow(mask, o + n, p);
    }
  }

  lemma SegmentPosition(o: nat, t: nat, n: nat)
    requires n > 0 && Rem(o, 2 * n) == 0 && t < 2 * n
    ensures Rem(o + t, 2 * n) == t && Base(o + t, n) == o
  {
    RemShift(o, t, 2 * n);
  }

  lemma LrotcAt(q: seq<nat>, n: nat, o: nat, t: nat)
    requires |q| == 32 && HalfWidth(n) && o + 2 * n <= 32 && Rem(o, 2 * n) == 0 && t < 2 * n
    ensures var rot := Rem(q[o + n - 1], 2 * n);
            Lrotc(q, n)[o + t] <==> rot <= t < rot + n
  {
    hide Rem;
    SegmentPosition(o, t, n);
  }

  /** A pair is exchanged when the mask misses its upper partner. */
  lemma SwapsAt(q: seq<nat>, n: nat, o: nat, j: nat)
    requires |q| == 32 && HalfWidth(n) && o + 2 * n <= 32 && Rem(o, 2 * n) == 0 && j < n
    ensures Swaps(q, n, o + j) == Swaps(q, n, o + n + j) == !Lrotc(q, n)[o + n + j]
    ensures Rem(o + j, 2 * n) == j && Rem(o + n + j, 2 * n) == n + j
  {
    hide Rem, Lrotc;
    SegmentPosition(o, j, n);
    SegmentPosition(o, n + j, n);
    assert o + (n + j) == o + n + j;
  }

  /** What the steering masks do to the pair at distance j, given the count at the middle of its segment. */
  lemma SwapRule(q: seq<nat>, n: nat, o: nat, j: nat)
    requires |q| == 32 && HalfWidth(n) && o + 2 * n <= 32 && Rem(o, 2 * n) == 0 && j < n
    ensures var rot := Rem(q[o + n - 1], 2 * n);
            var kept := rot <= j + n < rot + n;
            && Source(q, n, o + j) == (if kept then o + j else o + j + n)
            && Source(q, n, o + n + j) == (if kept then o + n + j else o + j)
  {
    hide Rem, Lrotc, Swaps, HalfWidth, Base;
    LrotcAt(q, n, o, n + j);
    SwapsAt(q, n, o, j);
    assert o + (n + j) == o + n + j;
  }

  /** The place of a rank at width n, seen from the segment of width 2 * n. */
  lemma WaitingInSegment(mask: Word, p: nat, n: nat)
    requires p < 32 && n > 0
    ensures Waiting(mask, p, 2 * n) == Base(p, n) + Rem(Count(mask, p), 2 * n)
    ensures Waiting(mask, p, n) ==
            Base(p, n) + (if Rem(p, 2 * n) < n then 0 else n) + Rem(Count(mask, p), n)
  {
    RemDouble(p, n);
  }

  /** One stage carries the bit of rank Count(mask, p) from its place at width 2 * n to its place at width n. */
  lemma RankStep(q: seq<nat>, mask: Word, p: nat, n: nat)
    requires p < 32 && mask[p] && Steers(q, mask, n)
    ensures Waiting(mask, p, n) < 32
    ensures Source(q, n, Waiting(mask, p, n)) == Waiting(mask, p, 2 * n)
  {
    hide Rem, Source, Waiting, Count, Base;
    SegmentFits(p, n);
    RankWithinSegment(mask, p, n);
    var o := Base(p, n);
    assert SteersAt(q, mask, n, o);
    WaitingInSegment(mask, p, n);
    RotateAndComplement(n, Count(mask, o + n), Count(mask, p));
    SwapRule(q, n, o, Rem(Count(mask, p), n));
  }

  ghost predicate AllWidths() {
    HalfWidth(1) && HalfWidth(2) && HalfWidth(4) && HalfWidth(8) && HalfWidth(16)
  }

  lemma WidthsHold()
    ensures AllWidths()
  {
    RemIsMod(32, 2);
    RemIsMod(32, 4);
    RemIsMod(32, 8);
    RemIsMod(32, 16);
    RemIsMod(32, 32);
  }

  /** The control counts steer all five stages. */
  ghost predicate SteersAll(q: seq<nat>, mask: Word) {
    && |q| == 32 && AllWidths()
    && Steers(q, mask, 1) && Steers(q, mask, 2) && Steers(q, mask, 4)
    && Steers(q, mask, 8) && Steers(q, mask, 16)
  }

  /** The position of the input that the whole network brings to position p. */
  ghost function Route(q: seq<nat>, p: nat): (s: nat)
    requires |q| == 32 && AllWidths() && p < 32
    ensures s < 32
  {
    hide Rem;
    Source(q, 16, Source(q, 8, Source(q, 4, Source(q, 2, Source(q, 1, p)))))
  }

  /** The position of the input that the network, run backwards, brings to position p. */
  ghost function RouteBack(q: seq<nat>, p: nat): (s: nat)
    requires |q| == 32 && AllWidths() && p < 32
    ensures s < 32
  {
    hide Rem;
    Source(q, 1, Source(q, 2, Source(q, 4, Source(q, 8, Source(q, 16, p)))))
  }

  lemma RoutesInverse(q: seq<nat>, p: nat)
    requires |q| == 32 && AllWidths() && p < 32
    ensures RouteBack(q, Route(q, p)) == p
    ensures Route(q, RouteBack(q, p)) == p
  {
    hide Source, Rem;
    var a := Source(q, 1, p);
    var b := Source(q, 2, a);
    var c := Source(q, 4, b);
    var d := Source(q, 8, c);
    SourceInvolution(q, 1, p);
    SourceInvolution(q, 2, a);
    SourceInvolution(q, 4, b);
    SourceInvolution(q, 8, c);
    SourceInvolution(q, 16, d);
    var e := Source(q, 16, p);
    var f := Source(q, 8, e);
    var g := Source(q, 4, f);
    var h := Source(q, 2, g);
    SourceInvolution(q, 16, p);
    SourceInvolution(q, 8, e);
    SourceInvolution(q, 4, f);
    SourceInvolution(q, 2, g);
    SourceInvolution(q, 1, h);
  }

  /** Every set position of the mask reads the input bit whose index is its rank. */
  lemma RouteIsRank(q: seq<nat>, mask: Word, p: nat)
    requires SteersAll(q, mask) && p < 32 && mask[p]
    ensures Route(q, p) == Count(mask, p)
  {
    hide Source, Steers, Rem;
    RankStep(q, mask, p, 1);
    RankStep(q, mask, p, 2);
    RankStep(q, mask, p, 4);
    RankStep(q, mask, p, 8);
    RankStep(q, mask, p, 16);
    RemIsMod(p, 1);
    RemIsMod(Count(mask, p), 1);
    RemIsMod(p, 32);
    RemIsMod(Count(mask, p), 32);
  }

  /** The forward network, before the final masking. */
  function Forward(x: Word, q: seq<nat>): Word
    requires |q| == 32 && AllWidths()
  {
    Stage(Stage(Stage(Stage(Stage(x, q, 16), q, 8), q, 4), q, 2), q, 1)
  }

  function Backward(x: Word, q: seq<nat>): Word
    requires |q| == 32 && AllWidths()
  {
    Stage(Stage(Stage(Stage(Stage(x, q, 1), q, 2), q, 4), q, 8), q, 16)
  }

  lemma ForwardBit(x: Word, q: seq<nat>, p: nat)
    requires |q| == 32 && AllWidths() && p < 32
    ensures Forward(x, q)[p] == x[Route(q, p)]
  {
    hide Source, Stage, Rem;
    var p1 := Source(q, 1, p);
    var p2 := Source(q, 2, p1);
    var p4 := Source(q, 4, p2);
    var p8 := Source(q, 8, p4);
    StageMoves(x, q, 16, p8);
    StageMoves(Stage(x, q, 16), q, 8, p4);
    StageMoves(Stage(Stage(x, q, 16), q, 8), q, 4, p2);
    StageMoves(Stage(Stage(Stage(x, q, 16), q, 8), q, 4), q, 2, p1);
    StageMoves(Stage(Stage(Stage(Stage(x, q, 16), q, 8), q, 4), q, 2), q, 1, p);
  }

  lemma BackwardBit(x: Word, q: seq<nat>, p: nat)
    requires |q| == 32 && AllWidths() && p < 32
    ensures Backward(x, q)[p] == x[RouteBack(q, p)]
  {
    hide Source, Stage, Rem;
    var p16 := Source(q, 16, p);
    var p8 := Source(q, 8, p16);
    var p4 := Source(q, 4, p8);
    var p2 := Source(q, 2, p4);
    StageMoves(x, q, 1, p2);
    StageMoves(Stage(x, q, 1), q, 2, p4);
    StageMoves(Stage(Stage(x, q, 1), q, 2), q, 4, p8);
    StageMoves(Stage(Stage(Stage(x, q, 1), q, 2), q, 4), q, 8, p16);
    StageMoves(Stage(Stage(Stage(Stage(x, q, 1), q, 2), q, 4), q, 8), q, 16, p);
  }

  /** The masked output of the forward network is the deposit. */
  lemma ForwardDeposits(x: Word, q: seq<nat>, mask: Word)
    requires SteersAll(q, mask)
    ensures And(Forward(x, q), mask) == Deposit(x, mask)
  {
    hide Forward, Steers, Route, Count, Rem;
    forall p | 0 <= p < 32
      ensures And(Forward(x, q), mask)[p] == Deposit(x, mask)[p]
    {
      if mask[p] {
        ForwardBit(x, q, p);
        RouteIsRank(q, mask, p);
      }
    }
  }

  /** The backward network gathers the masked bits at the bottom and leaves zeros above them. */
  lemma BackwardExtracts(x: Word, q: seq<nat>, mask: Word)
    requires SteersAll(q, mask)
    ensures Backward(And(x, mask), q) == Extract(x, mask)
  {
    hide Backward, Steers, Route, RouteBack, Count, Rem;
    forall k | 0 <= k < 32
      ensures Backward(And(x, mask), q)[k] == Extract(x, mask)[k]
    {
      BackwardBit(And(x, mask), q, k);
      var s := RouteBack(q, k);
      RoutesInverse(q, k);
      if mask[s] {
        RouteIsRank(q, mask, s);
      }
      forall p | 0 <= p < 32 && mask[p] && Count(mask, p) == k
        ensures p == s
      {
        RouteIsRank(q, mask, p);
        RoutesInverse(q, p);
      }
    }
  }

  // ---------- The two cycles ----------

  /** Entry i counts the set bits in positions 0..i. */
  ghost function Counts(mask: Word): (c: seq<nat>)
    ensures |c| == 32
  {
    seq(32, i requires 0 <= i < 32 => Count(mask, i + 1))
  }

  /** First cycle: the prefix counts of the mask, squeezed into the two intermediate registers. */
  method FirstCycle(mask: Word) returns (lsb: Word, msb: Word)
    ensures lsb == PackLsb(Counts(mask)) && msb == PackMsb(Counts(mask))
  {
    var partial := PrefixCount(mask);
    lsb, msb := PackLsb(partial), PackMsb(partial);
    assert partial == Counts(mask);
  }

  /** What survives in the registers is enough to steer every stage. */
  lemma RegistersSteer(mask: Word, n: nat)
    requires HalfWidth(n) && (n == 1 || n == 2 || n == 4 || n == 8 || n == 16)
    ensures Steers(Unpack(PackLsb(Counts(mask)), PackMsb(Counts(mask))), mask, n)
  {
    hide Rem, Unpack, Count;
    forall o: nat | o + 2 * n <= 32 && Rem(o, 2 * n) == 0
      ensures SteersAt(Unpack(PackLsb(Counts(mask)), PackMsb(Counts(mask))), mask, n, o)
    {
      MultipleOfHalf(o, n);
      Survival(Counts(mask), o + n - 1, n);
    }
  }

  lemma MultipleOfHalf(o: nat, n: nat)
    requires n > 0 && Rem(o, 2 * n) == 0
    ensures Rem(o + n, n) == 0
  {
    RemDouble(o, n);
    RemShift(o, n, n);
  }

  lemma RegistersSteerAll(mask: Word)
    ensures SteersAll(Unpack(PackLsb(Counts(mask)), PackMsb(Counts(mask))), mask)
  {
    hide Steers, Rem;
    WidthsHold();
    RegistersSteer(mask, 1);
    RegistersSteer(mask, 2);
    RegistersSteer(mask, 4);
    RegistersSteer(mask, 8);
    RegistersSteer(mask, 16);
  }

  /** Second cycle of BDECOMPRESS. */
  method ButterflyResult(a: Word, b: Word, lsb: Word, msb: Word) returns (r: Word)
    ensures AllWidths() && r == And(Forward(a, Unpack(lsb, msb)), b)
  {
    hide Stage, Rem;
    WidthsHold();
    var q := Unpack(lsb, msb);
    r := a;
    r := Stage(r, q, 16);
    r := Stage(r, q, 8);
    r := Stage(r, q, 4);
    r := Stage(r, q, 2);
    r := Stage(r, q, 1);
    r := And(r, b);
  }

  /** Second cycle of BCOMPRESS. */
  method InvButterflyResult(a: Word, b: Word, lsb: Word, msb: Word) returns (r: Word)
    ensures AllWidths() && r == Backward(And(a, b), Unpack(lsb, msb))
  {
    hide Stage, Rem;
    WidthsHold();
    var q := Unpack(lsb, msb);
    r := And(a, b);
    r := Stage(r, q, 1);
    r := Stage(r, q, 2);
    r := Stage(r, q, 4);
    r := Stage(r, q, 8);
    r := Stage(r, q, 16);
  }

  /** BDECOMPRESS over its two cycles is the deposit. */
  method BDecompress(a: Word, b: Word) returns (r: Word)
    ensures r == Deposit(a, b)
  {
    hide *;
    var lsb, msb := FirstCycle(b);
    r := ButterflyResult(a, b, lsb, msb);
    RegistersSteerAll(b);
    ForwardDeposits(a, Unpack(lsb, msb), b);
  }

  /** BCOMPRESS over its two cycles is the extract. */
  method BCompress(a: Word, b: Word) returns (r: Word)
    ensures r == Extract(a, b)
  {
    hide *;
    var lsb, msb := FirstCycle(b);
    r := InvButterflyResult(a, b, lsb, msb);
    RegistersSteerAll(b);
    BackwardExtracts(a, Unpack(lsb, msb), b);
  }

  // ---------- How the two operations undo each other ----------

  lemma DepositAfterExtract(v: Word, mask: Word)
    ensures Deposit(Extract(v, mask), mask) == And(v, mask)
  {
    hide Count;
    forall p | 0 <= p < 32
      ensures Deposit(Extract(v, mask), mask)[p] == And(v, mask)[p]
    {
      if mask[p] {
        CountWindow(mask, p, 32);
        forall s | 0 <= s < 32 && mask[s] && Count(mask, s) == Count(mask, p)
          ensures s == p
        {
          if s < p {
            RankStrict(mask, s, p);
          } else if p < s {
            RankStrict(mask, p, s);
          }
        }
      }
    }
  }

  lemma ExtractAfterDeposit(v: Word, mask: Word, k: nat)
    requires k < 32
    ensures Extract(Deposit(v, mask), mask)[k] <==> k < Count(mask, 32) && v[k]
  {
    hide Count;
    if k < Count(mask, 32) {
      var p := Select(mask, 32, k);
      assert Deposit(v, mask)[p] == v[k];
    }
    forall p | 0 <= p < 32 && mask[p] && Count(mask, p) == k
      ensures k < Count(mask, 32) && Deposit(v, mask)[p] == v[k]
    {
      RankStrict(mask, p, 32);
    }
  }
}
