/**
 * The Brent-Kung prefix counter of the bit-manipulation datapath: an adder tree over an array,
 * updated in place, that ends with the number of set bits up to every position.
 */
module PrefixCounter {
  import opened Binary
  import opened Bits

  /** Counter entries are six bits wide. */
  function Add6(x: nat, y: nat): nat {
    (x + y) % 64
  }

  /** Set bits in positions lo..hi-1. */
  ghost function Span(bits: Word, lo: nat, hi: nat): int
    requires lo <= hi <= 32
  {
    Count(bits, hi) - Count(bits, lo)
  }

  /** Joins two adjacent spans; six bits are always enough for the sum. */
  lemma JoinSpans(bits: Word, lo: nat, mid: nat, hi: nat)
    requires lo <= mid <= hi <= 32
    ensures 0 <= Span(bits, lo, mid) && 0 <= Span(bits, mid, hi)
    ensures Add6(Span(bits, lo, mid), Span(bits, mid, hi)) == Span(bits, lo, hi)
  {
    CountWindow(bits, lo, mid);
    CountWindow(bits, mid, hi);
  }

  /** Index j lies on the row that starts at start and takes every stride-th entry. */
  predicate OnRow(j: nat, start: nat, stride: nat)
    requires stride > 0
  {
    j >= start && (j - start) % stride == 0
  }

  /** Between two neighbours on a row there is no other member. */
  lemma RowGap(start: nat, stride: nat, i: nat, j: nat)
    requires stride > 0 && OnRow(i, start, stride) && i < j <= i + stride
    ensures OnRow(j, start, stride) <==> j == i + stride
  {
    var k := (i - start) / stride;
    var d := j - i;
    if d < stride {
      assert j - start == stride * k + d;
      assert (j - start) % stride == d by {
        ModOf(stride, k, d);
      }
    } else {
      ModOf(stride, k + 1, 0);
      assert j - start == stride * (k + 1);
    }
  }

  /** Every entry on the row absorbs the entry dist below it; the others stay. */
  ghost predicate RowAdded(before: seq<nat>, after: seq<nat>, start: nat, stride: nat, dist: nat) {
    && |before| == |after| == 32 && 1 <= dist <= start && stride > 0
    && forall i {:trigger after[i]} | 0 <= i < 32 ::
         after[i] == if OnRow(i, start, stride) then Add6(before[i - dist], before[i]) else before[i]
  }

  /** One row of adders, in place. */
  method AddRow(a: array<nat>, start: nat, stride: nat, dist: nat)
    requires a.Length == 32 && 1 <= dist <= start && dist < stride
    modifies a
    ensures RowAdded(old(a[..]), a[..], start, stride, dist)
  {
    var i := start;
    while i < 32
      invariant i >= start && OnRow(i, start, stride)
      invariant forall j | 0 <= j < 32 ::
                  a[j] == if j < i && OnRow(j, start, stride)
                          then Add6(old(a[j - dist]), old(a[j])) else old(a[j])
      decreases 32 - i
    {
      if OnRow(i - dist, start, stride) {
        RowGap(start, stride, i - dist, i);
      }
      forall j | i < j <= i + stride
        ensures OnRow(j, start, stride) <==> j == i + stride
      {
        RowGap(start, stride, i, j);
      }
      a[i] := Add6(a[i - dist], a[i]);
      i := i + stride;
    }
  }

  /** The largest power of two, at most w, that divides e. */
  function Window(e: nat, w: nat): nat {
    if w >= 32 && e % 32 == 0 then 32
    else if w >= 16 && e % 16 == 0 then 16
    else if w >= 8 && e % 8 == 0 then 8
    else if w >= 4 && e % 4 == 0 then 4
    else if w >= 2 && e % 2 == 0 then 2
    else 1
  }

  /** Primary tree: an odd entry sums the widest aligned window, of at most w bits, that ends there. */
  ghost predicate Rising(a: seq<nat>, bits: Word, w: nat) {
    && |a| == 32
    && forall i {:trigger a[i]} | 0 <= i < 32 ::
         a[i] == if i % 2 == 0 then 0 else Span(bits, i + 1 - Window(i + 1, w), i + 1)
  }

  /** Intermediate tree: every entry that ends on a multiple of w already holds its prefix count. */
  ghost predicate Falling(a: seq<nat>, bits: Word, w: nat)
    requires w > 0
  {
    && |a| == 32
    && forall i {:trigger a[i]} | 0 <= i < 32 ::
         a[i] == if (i + 1) % w == 0 then Count(bits, i + 1)
                 else if i % 2 == 0 then 0
                 else Span(bits, i + 1 - Window(i + 1, 32), i + 1)
  }

  /** A row of the primary tree touches exactly the ends of windows of width 2 * w. */
  ghost predicate RisingIndex(i: nat, w: nat)
    requires w > 0
  {
    if OnRow(i, 2 * w - 1, 2 * w) then
      && i % 2 == 1 && (i - w) % 2 == 1 && i + 1 >= 2 * w
      && Window(i + 1, 2 * w) == 2 * w && Window(i + 1, w) == w && Window(i + 1 - w, w) == w
    else
      Window(i + 1, 2 * w) == Window(i + 1, w)
  }

  lemma RisingIndices2(i: nat)
    requires i < 32
    ensures RisingIndex(i, 2)
  {
  }

  lemma RisingIndices4(i: nat)
    requires i < 32
    ensures RisingIndex(i, 4)
  {
  }

  lemma RisingIndices8(i: nat)
    requires i < 32
    ensures RisingIndex(i, 8)
  {
  }

  lemma RisingIndices16(i: nat)
    requires i < 32
    ensures RisingIndex(i, 16)
  {
  }

  lemma RisingIndices(i: nat, w: nat)
    requires i < 32 && (w == 2 || w == 4 || w == 8 || w == 16)
    ensures RisingIndex(i, w)
  {
    if w == 2 {
      RisingIndices2(i);
    } else if w == 4 {
      RisingIndices4(i);
    } else if w == 8 {
      RisingIndices8(i);
    } else {
      RisingIndices16(i);
    }
  }

  /** A row of the intermediate tree touches the unfinished entries that end on a multiple of w. */
  ghost predicate FallingIndex(i: nat, w: nat)
    requires w > 0
  {
    if OnRow(i, 3 * w - 1, 2 * w) then
      && i % 2 == 1 && i + 1 >= 3 * w && (i + 1 - w) % (2 * w) == 0
      && (i + 1) % (2 * w) != 0 && (i + 1) % w == 0 && Window(i + 1, 32) == w
    else
      && ((i + 1) % w == 0 <==> (i + 1) % (2 * w) == 0 || i + 1 == w)
      && (i + 1 == w ==> i % 2 == 1 && (i + 1) % (2 * w) != 0 && Window(i + 1, 32) == w)
  }

  lemma FallingIndices2(i: nat)
    requires i < 32
    ensures FallingIndex(i, 2)
  {
  }

  lemma FallingIndices4(i: nat)
    requires i < 32
    ensures FallingIndex(i, 4)
  {
  }

  lemma FallingIndices8(i: nat)
    requires i < 32
    ensures FallingIndex(i, 8)
  {
  }

  lemma FallingIndices(i: nat, w: nat)
    requires i < 32 && (w == 2 || w == 4 || w == 8)
    ensures FallingIndex(i, w)
  {
    if w == 2 {
      FallingIndices2(i);
    } else if w == 4 {
      FallingIndices4(i);
    } else {
      FallingIndices8(i);
    }
  }

  /** A row of the primary tree doubles the width of the windows. */
  lemma RisingRow(bits: Word, before: seq<nat>, after: seq<nat>, w: nat)
    requires w == 2 || w == 4 || w == 8 || w == 16
    requires Rising(before, bits, w)
    requires RowAdded(before, after, 2 * w - 1, 2 * w, w)
    ensures Rising(after, bits, 2 * w)
  {
    forall i | 0 <= i < 32
      ensures after[i] == if i % 2 == 0 then 0 else Span(bits, i + 1 - Window(i + 1, 2 * w), i + 1)
    {
      RisingIndices(i, w);
      if OnRow(i, 2 * w - 1, 2 * w) {
        JoinSpans(bits, i + 1 - 2 * w, i + 1 - w, i + 1);
      }
    }
  }

  /** A row of the intermediate tree halves the distance between finished entries. */
  lemma FallingRow(bits: Word, before: seq<nat>, after: seq<nat>, w: nat)
    requires w == 2 || w == 4 || w == 8
    requires Falling(before, bits, 2 * w)
    requires RowAdded(before, after, 3 * w - 1, 2 * w, w)
    ensures Falling(after, bits, w)
  {
    forall i | 0 <= i < 32
      ensures after[i] == if (i + 1) % w == 0 then Count(bits, i + 1)
                          else if i % 2 == 0 then 0
                          else Span(bits, i + 1 - Window(i + 1, 32), i + 1)
    {
      FallingIndices(i, w);
      if OnRow(i, 3 * w - 1, 2 * w) {
        JoinSpans(bits, 0, i + 1 - w, i + 1);
      }
    }
  }

  /** Stage 1: every odd entry adds two neighbouring bits. */
  method PairSums(bits: Word, a: array<nat>)
    requires a.Length == 32 && forall j | 0 <= j < 32 :: a[j] == 0
    modifies a
    ensures Rising(a[..], bits, 2)
  {
    var i := 1;
    while i < 32
      invariant 1 <= i <= 33 && i % 2 == 1
      invariant forall j | 0 <= j < 32 ::
                  a[j] == if j % 2 == 1 && j < i then Span(bits, j - 1, j + 1) else 0
    {
      assert Count(bits, i + 1) == Count(bits, i) + Digit(bits[i]);
      assert Count(bits, i) == Count(bits, i - 1) + Digit(bits[i - 1]);
      a[i] := Add6(Digit(bits[i]), Digit(bits[i - 1]));
      i := i + 2;
    }
  }

  /** The primary adder tree (stages 1 to 5). */
  method PrimaryTree(bits: Word, a: array<nat>)
    requires a.Length == 32 && forall j | 0 <= j < 32 :: a[j] == 0
    modifies a
    ensures Rising(a[..], bits, 32)
  {
    PairSums(bits, a);
    ghost var s1 := a[..];
    AddRow(a, 3, 4, 2);
    ghost var s2 := a[..];
    RisingRow(bits, s1, s2, 2);
    AddRow(a, 7, 8, 4);
    ghost var s3 := a[..];
    RisingRow(bits, s2, s3, 4);
    AddRow(a, 15, 16, 8);
    ghost var s4 := a[..];
    RisingRow(bits, s3, s4, 8);
    AddRow(a, 31, 32, 16);
    RisingRow(bits, s4, a[..], 16);
  }

  /** The intermediate value tree (the second half of stage 5, and stages 6 and 7). */
  method IntermediateTree(bits: Word, a: array<nat>)
    requires a.Length == 32 && Falling(a[..], bits, 16)
    modifies a
    ensures Falling(a[..], bits, 2)
  {
    ghost var s0 := a[..];
    AddRow(a, 23, 16, 8);
    ghost var s1 := a[..];
    FallingRow(bits, s0, s1, 8);
    AddRow(a, 11, 8, 4);
    ghost var s2 := a[..];
    FallingRow(bits, s1, s2, 4);
    AddRow(a, 5, 4, 2);
    FallingRow(bits, s2, a[..], 2);
  }

  /** After the primary tree the entries that end on a multiple of 16 are finished. */
  lemma TreesMeet(bits: Word, a: seq<nat>)
    requires Rising(a, bits, 32)
    ensures Falling(a, bits, 16)
  {
    forall i | 0 <= i < 32
      ensures (i + 1) % 16 == 0 ==> i % 2 == 1 && Window(i + 1, 32) == i + 1
    {
    }
  }

  lemma LastRow(bits: Word, a: seq<nat>)
    requires Falling(a, bits, 2)
    ensures forall j | 0 <= j < 32 :: a[j] == if j % 2 == 1 then Count(bits, j + 1) else 0
  {
  }

  /** Stage 8: every even entry adds its own bit to the entry below. */
  method EvenEntries(bits: Word, a: array<nat>)
    requires a.Length == 32
    requires forall j | 0 <= j < 32 :: a[j] == if j % 2 == 1 then Count(bits, j + 1) else 0
    modifies a
    ensures forall j | 0 <= j < 32 :: a[j] == Count(bits, j + 1)
  {
    a[0] := Digit(bits[0]);
    var i := 2;
    while i < 32
      invariant 2 <= i <= 32 && i % 2 == 0
      invariant forall j | 0 <= j < 32 ::
                  a[j] == if j % 2 == 1 || j < i then Count(bits, j + 1) else 0
    {
      a[i] := Add6(a[i - 1], Digit(bits[i]));
      i := i + 2;
    }
  }

  /** bitcnt_partial: entry i is the number of set bits in positions 0..i. */
  method PrefixCount(bits: Word) returns (partial: seq<nat>)
    ensures |partial| == 32
    ensures forall i | 0 <= i < 32 :: partial[i] == Count(bits, i + 1)
  {
    hide Rising, Falling, Count;
    var a := new nat[32](_ => 0);
    PrimaryTree(bits, a);
    TreesMeet(bits, a[..]);
    IntermediateTree(bits, a);
    LastRow(bits, a[..]);
    EvenEntries(bits, a);
    partial := a[..];
  }
}
