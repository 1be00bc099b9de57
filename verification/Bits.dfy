/** 32-bit words as bit sequences: bit i of a word is element i. */
module Bits {

  type Word = w: seq<bool> | |w| == 32 witness seq(32, i => false)

  function Zeros(): Word {
    seq(32, i => false)
  }

  function And(a: Word, b: Word): Word {
    seq(32, i requires 0 <= i < 32 => a[i] && b[i])
  }

  function Or(a: Word, b: Word): Word {
    seq(32, i requires 0 <= i < 32 => a[i] || b[i])
  }

  function Xor(a: Word, b: Word): Word {
    seq(32, i requires 0 <= i < 32 => a[i] != b[i])
  }

  function Not(a: Word): Word {
    seq(32, i requires 0 <= i < 32 => !a[i])
  }

  /** Logical shift left; bits pushed past bit 31 are lost. */
  function Shl(a: Word, n: nat): Word {
    seq(32, i requires 0 <= i < 32 => i >= n && a[i - n])
  }

  /** Logical shift right. */
  function Shr(a: Word, n: nat): Word {
    seq(32, i requires 0 <= i < 32 => i + n < 32 && a[i + n])
  }

  /** Bit reversal. */
  function Rev(a: Word): Word {
    seq(32, i requires 0 <= i < 32 => a[31 - i])
  }

  /** Number of set bits among the n lowest ones. */
  function Count(w: seq<bool>, n: nat): (c: nat)
    requires n <= |w|
    ensures c <= n
  {
    if n == 0 then 0 else Count(w, n - 1) + if w[n - 1] then 1 else 0
  }

  /** The count over a window is between 0 and the width of the window. */
  lemma {:induction false} CountWindow(w: seq<bool>, lo: nat, hi: nat)
    requires lo <= hi <= |w|
    ensures 0 <= Count(w, hi) - Count(w, lo) <= hi - lo
  {
    if lo < hi {
      CountWindow(w, lo, hi - 1);
    }
  }

  /** Two set positions have different ranks, and ranks grow with the position. */
  lemma RankStrict(w: seq<bool>, p: nat, r: nat)
    requires p < r <= |w| && w[p]
    ensures Count(w, p) < Count(w, r)
  {
    CountWindow(w, p + 1, r);
  }

  /** Every rank below the total count belongs to exactly one set position. */
  lemma {:induction false} Select(w: seq<bool>, n: nat, q: nat) returns (p: nat)
    requires n <= |w| && q < Count(w, n)
    ensures p < n && w[p] && Count(w, p) == q
  {
    if w[n - 1] && Count(w, n - 1) == q {
      p := n - 1;
    } else {
      p := Select(w, n - 1, q);
    }
  }

  // ---------- Division with remainder ----------

  lemma MulGap(n: int, t: int)
    requires n >= 0
    ensures t >= 1 ==> n * t >= n
    ensures t <= -1 ==> n * t <= -n
  {
  }

  lemma ModOf(n: nat, k: nat, d: nat)
    requires d < n
    ensures (n * k + d) / n == k && (n * k + d) % n == d
  {
    var q := (n * k + d) / n;
    assert n * k + d == n * q + (n * k + d) % n;
    MulGap(n, k - q);
    assert n * (k - q) == n * k - n * q;
  }

  /** Doubling the modulus adds one more binary digit to the remainder. */
  lemma DoubleModulus(c: nat, m: nat)
    requires m > 0
    ensures c % (2 * m) == c % m + (if c / m % 2 == 1 then m else 0)
  {
    var h, t := c / m / 2, c / m % 2;
    assert c == m * (c / m) + c % m;
    assert m * (c / m) == m * (2 * h + t) == (2 * m) * h + m * t;
    ModOf(2 * m, h, m * t + c % m);
  }

  /** c modulo m, by repeated subtraction. */
  function Rem(c: nat, m: nat): (r: nat)
    requires m > 0
    ensures r < m
  {
    if c < m then c else Rem(c - m, m)
  }

  lemma {:induction false} RemIsMod(c: nat, m: nat)
    requires m > 0
    ensures Rem(c, m) == c % m
  {
    if c < m {
      ModOf(m, 0, c);
    } else {
      RemIsMod(c - m, m);
      var k := (c - m) / m;
      assert c == m * (k + 1) + (c - m) % m;
      ModOf(m, k + 1, (c - m) % m);
    }
  }

  /** Adding a multiple of the modulus does not change the remainder. */
  lemma {:induction false} RemShift(o: nat, u: nat, m: nat)
    requires m > 0 && Rem(o, m) == 0
    ensures Rem(o + u, m) == Rem(u, m)
  {
    if o >= m {
      RemShift(o - m, u, m);
    }
  }

  /** Doubling the modulus adds at most one more half. */
  lemma {:induction false} RemDouble(c: nat, m: nat)
    requires m > 0
    ensures Rem(c, 2 * m) == Rem(c, m) || Rem(c, 2 * m) == Rem(c, m) + m
  {
    if c >= 2 * m {
      RemDouble(c - 2 * m, m);
      assert Rem(c, m) == Rem(c - m, m) == Rem(c - m - m, m);
    }
  }

  lemma {:induction false} RemBase(p: nat, m: nat)
    requires m > 0
    ensures Rem(p, m) <= p && Rem(p - Rem(p, m), m) == 0
  {
    if p >= m {
      RemBase(p - m, m);
    }
  }
}
