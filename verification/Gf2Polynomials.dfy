/**
 * Polynomials over GF(2), coded as natural numbers: binary digit k is the coefficient of x^k.
 * Addition is digit-wise exclusive or; the ring laws and Barrett reduction are proved here.
 */
module Gf2Polynomials {
  import opened Binary

  function Sum(a: nat, b: nat): nat
    decreases a + b
  {
    if a == 0 then b
    else if b == 0 then a
    else Digit(a % 2 != b % 2) + 2 * Sum(a / 2, b / 2)
  }

  function Product(a: nat, b: nat): nat {
    if a == 0 then 0 else Sum(if a % 2 == 1 then b else 0, 2 * Product(a / 2, b))
  }

  /** a times x^n. */
  function Up(a: nat, n: nat): nat
    decreases n
  {
    if n == 0 then a else 2 * Up(a, n - 1)
  }

  /** Coefficients below x^n. */
  function Low(a: nat, n: nat): nat
    decreases n
  {
    if n == 0 then 0 else a % 2 + 2 * Low(a / 2, n - 1)
  }

  /** Coefficients from x^n on, shifted down. */
  function High(a: nat, n: nat): nat
    decreases n
  {
    if n == 0 then a else High(a / 2, n - 1)
  }

  // ---------- Addition ----------

  lemma SumStep(a: nat, b: nat)
    ensures Sum(a, b) == Digit(a % 2 != b % 2) + 2 * Sum(a / 2, b / 2)
    ensures Sum(a, b) % 2 == Digit(a % 2 != b % 2)
    ensures Sum(a, b) / 2 == Sum(a / 2, b / 2)
  {
  }

  lemma {:induction false} SumCommutes(a: nat, b: nat)
    ensures Sum(a, b) == Sum(b, a)
    decreases a + b
  {
    if a > 0 && b > 0 {
      SumCommutes(a / 2, b / 2);
    }
  }

  lemma {:induction false} SumAssociates(a: nat, b: nat, c: nat)
    ensures Sum(Sum(a, b), c) == Sum(a, Sum(b, c))
    decreases a + b + c
  {
    if a + b + c > 0 {
      SumAssociates(a / 2, b / 2, c / 2);
      SumStep(a, b);
      SumStep(b, c);
      SumStep(Sum(a, b), c);
      SumStep(a, Sum(b, c));
    }
  }

  lemma {:induction false} SumSelf(a: nat)
    ensures Sum(a, a) == 0
  {
    if a > 0 {
      SumSelf(a / 2);
    }
  }

  lemma SumZero(a: nat)
    ensures Sum(a, 0) == a && Sum(0, a) == a
  {
  }

  lemma SumDouble(a: nat, b: nat)
    ensures Sum(2 * a, 2 * b) == 2 * Sum(a, b)
  {
    SumStep(2 * a, 2 * b);
  }

  /** x cancels: a + (a + b) is b. */
  lemma SumCancels(a: nat, b: nat)
    ensures Sum(a, Sum(a, b)) == b
  {
    SumAssociates(a, a, b);
    SumSelf(a);
  }

  /** The middle two of four summands may trade places. */
  lemma SumExchange(a: nat, b: nat, c: nat, d: nat)
    ensures Sum(Sum(a, b), Sum(c, d)) == Sum(Sum(a, c), Sum(b, d))
  {
    SumAssociates(a, b, Sum(c, d));
    SumAssociates(b, c, d);
    SumCommutes(b, c);
    SumAssociates(c, b, d);
    SumAssociates(a, c, Sum(b, d));
  }

  lemma {:induction false} SumBelow(a: nat, b: nat, n: nat)
    requires a < Pow2(n) && b < Pow2(n)
    ensures Sum(a, b) < Pow2(n)
    decreases n
  {
    if n > 0 {
      SumBelow(a / 2, b / 2, n - 1);
      SumStep(a, b);
    }
  }

  /** Adding a polynomial of lower degree leaves the leading coefficient alone. */
  lemma {:induction false} SumKeepsTop(a: nat, b: nat, n: nat)
    requires a < Pow2(n) && Pow2(n) <= b < Pow2(n + 1)
    ensures Pow2(n) <= Sum(a, b) < Pow2(n + 1)
    decreases n
  {
    if n > 0 {
      SumKeepsTop(a / 2, b / 2, n - 1);
      SumStep(a, b);
    }
  }

  // ---------- Multiplication ----------

  lemma ProductStep(a: nat, b: nat)
    ensures Product(a, b) == Sum(if a % 2 == 1 then b else 0, 2 * Product(a / 2, b))
  {
  }

  lemma ProductUnits(a: nat)
    ensures Product(0, a) == 0 && Product(1, a) == a
  {
    assert Product(1, a) == Sum(a, 2 * Product(0, a));
  }

  lemma ProductDoubleLeft(a: nat, b: nat)
    ensures Product(2 * a, b) == 2 * Product(a, b)
  {
    ProductStep(2 * a, b);
  }

  lemma {:induction false} ProductDoubleRight(a: nat, b: nat)
    ensures Product(a, 2 * b) == 2 * Product(a, b)
  {
    if a > 0 {
      ProductDoubleRight(a / 2, b);
      SumDouble(if a % 2 == 1 then b else 0, 2 * Product(a / 2, b));
    }
  }

  lemma {:induction false} DistributesRight(a: nat, b: nat, c: nat)
    ensures Product(a, Sum(b, c)) == Sum(Product(a, b), Product(a, c))
    decreases a
  {
    if a > 0 {
      hide Sum, Product;
      ProductStep(a, b);
      ProductStep(a, c);
      ProductStep(a, Sum(b, c));
      DistributesRight(a / 2, b, c);
      var b', c' := Product(a / 2, b), Product(a / 2, c);
      SumDouble(b', c');
      SumZero(0);
      var o := a % 2 == 1;
      SumExchange(if o then b else 0, 2 * b', if o then c else 0, 2 * c');
    }
  }

  lemma {:induction false} DistributesLeft(a: nat, b: nat, c: nat)
    ensures Product(Sum(a, b), c) == Sum(Product(a, c), Product(b, c))
    decreases a + b
  {
    if a + b > 0 {
      DistributesLeft(a / 2, b / 2, c);
      hide Sum, Product;
      SumStep(a, b);
      ProductStep(a, c);
      ProductStep(b, c);
      ProductStep(Sum(a, b), c);
      var a', b' := Product(a / 2, c), Product(b / 2, c);
      SumDouble(a', b');
      SumSelf(c);
      SumZero(c);
      SumZero(0);
      SumExchange(if a % 2 == 1 then c else 0, 2 * a', if b % 2 == 1 then c else 0, 2 * b');
    }
  }

  lemma {:induction false} ProductAssociates(a: nat, b: nat, c: nat)
    ensures Product(Product(a, b), c) == Product(a, Product(b, c))
    decreases a
  {
    if a == 0 {
      ProductUnits(c);
    } else {
      ProductAssociates(a / 2, b, c);
      hide Sum, Product;
      ProductStep(a, b);
      ProductStep(a, Product(b, c));
      DistributesLeft(if a % 2 == 1 then b else 0, 2 * Product(a / 2, b), c);
      ProductDoubleLeft(Product(a / 2, b), c);
      ProductUnits(c);
    }
  }

  lemma {:induction false} ProductCommutes(a: nat, b: nat)
    ensures Product(a, b) == Product(b, a)
    decreases a
  {
    if a == 0 {
      ProductZero(b);
    } else {
      ProductCommutes(a / 2, b);
      hide Sum, Product;
      ProductStep(a, b);
      ProductDoubleRight(b, a / 2);
      ProductOne(b);
      ProductZero(b);
      DistributesRight(b, a % 2, 2 * (a / 2));
      DigitPlusDouble(a % 2, a / 2);
    }
  }

  lemma {:induction false} ProductZero(a: nat)
    ensures Product(a, 0) == 0
  {
    if a > 0 {
      ProductZero(a / 2);
    }
  }

  lemma {:induction false} ProductOne(a: nat)
    ensures Product(a, 1) == a
  {
    if a > 0 {
      ProductOne(a / 2);
      SumStep(a % 2, 2 * (a / 2));
    }
  }

  lemma DigitPlusDouble(d: nat, a: nat)
    requires d < 2
    ensures Sum(d, 2 * a) == d + 2 * a
  {
    SumStep(d, 2 * a);
  }

  /** Multiplying by x^n commutes with addition and with multiplication on either side. */
  lemma {:induction false} UpDistributes(a: nat, b: nat, n: nat)
    ensures Product(a, Up(b, n)) == Up(Product(a, b), n)
    ensures Product(Up(a, n), b) == Up(Product(a, b), n)
    ensures Up(Sum(a, b), n) == Sum(Up(a, n), Up(b, n))
    decreases n
  {
    if n > 0 {
      hide Sum, Product;
      UpDistributes(a, b, n - 1);
      ProductDoubleRight(a, Up(b, n - 1));
      ProductDoubleLeft(Up(a, n - 1), b);
      SumDouble(Up(a, n - 1), Up(b, n - 1));
    }
  }

  /** Multiplying by x^n raises the degree by n. */
  lemma {:induction false} UpBound(a: nat, m: nat, n: nat)
    ensures a < Pow2(m) <==> Up(a, n) < Pow2(m + n)
    decreases n
  {
    if n > 0 {
      UpBound(a, m, n - 1);
    }
  }

  /** A polynomial splits at x^n into its two parts. */
  lemma {:induction false} Split(a: nat, n: nat)
    ensures a == Sum(Up(High(a, n), n), Low(a, n))
    ensures Low(a, n) < Pow2(n)
    decreases n
  {
    hide Sum;
    if n > 0 {
      Split(a / 2, n - 1);
      var up, low := Up(High(a, n), n - 1), Low(a / 2, n - 1);
      assert Up(High(a, n), n) == 2 * up && Low(a, n) == a % 2 + 2 * low;
      hide Up, High, Low, Pow2;
      SumStep(2 * up, a % 2 + 2 * low);
      assert 2 * up / 2 == up && (a % 2 + 2 * low) / 2 == low;
    } else {
      SumZero(a);
    }
  }

  /** Cutting off coefficients from x^n on commutes with addition. */
  lemma {:induction false} LowDistributes(a: nat, b: nat, n: nat)
    ensures Low(Sum(a, b), n) == Sum(Low(a, n), Low(b, n))
    decreases n
  {
    hide Sum;
    if n == 0 {
      SumZero(0);
    } else {
      LowDistributes(a / 2, b / 2, n - 1);
      SumStep(a, b);
      SumStep(Low(a, n), Low(b, n));
    }
  }

  lemma {:induction false} HighDistributes(a: nat, b: nat, n: nat)
    ensures High(Sum(a, b), n) == Sum(High(a, n), High(b, n))
    decreases n
  {
    if n > 0 {
      HighDistributes(a / 2, b / 2, n - 1);
      SumStep(a, b);
    }
  }

  /** A polynomial of degree below n has no coefficients from x^n on. */
  lemma {:induction false} LowOfSmall(a: nat, n: nat)
    requires a < Pow2(n)
    ensures Low(a, n) == a && High(a, n) == 0
    decreases n
  {
    if n > 0 {
      LowOfSmall(a / 2, n - 1);
    }
  }

  /** Multiples of x^n vanish below x^n, and dividing them by x^n gives back the factor. */
  lemma {:induction false} UpSplits(a: nat, n: nat)
    ensures Low(Up(a, n), n) == 0 && High(Up(a, n), n) == a
    decreases n
  {
    if n > 0 {
      UpSplits(a, n - 1);
    }
  }

  /** Degrees add: an upper bound. */
  lemma {:induction false} ProductBelow(a: nat, b: nat, m: nat, n: nat)
    requires a < Pow2(m) && b < Pow2(n + 1)
    ensures Product(a, b) < Pow2(m + n)
    decreases m
  {
    if m > 0 {
      hide Sum, Product;
      ProductBelow(a / 2, b, m - 1, n);
      ProductStep(a, b);
      if m == 1 {
        ProductUnits(b);
        SumZero(0);
        SumZero(b);
      } else {
        PowGrows(n + 1, m + n);
        SumBelow(if a % 2 == 1 then b else 0, 2 * Product(a / 2, b), m + n);
      }
    } else {
      ProductUnits(b);
    }
  }

  lemma {:induction false} PowGrows(m: nat, n: nat)
    requires m <= n
    ensures Pow2(m) <= Pow2(n)
    decreases n - m
  {
    if m < n {
      PowGrows(m + 1, n);
    }
  }

  /** A nonzero multiple of a polynomial of degree n has degree at least n. */
  lemma {:induction false} ProductAtLeast(a: nat, b: nat, m: nat, n: nat)
    requires Pow2(m) <= a < Pow2(m + 1) && Pow2(n) <= b < Pow2(n + 1)
    ensures Pow2(m + n) <= Product(a, b) < Pow2(m + n + 1)
    decreases m
  {
    hide Sum, Product;
    ProductStep(a, b);
    if m == 0 {
      ProductUnits(b);
    } else {
      ProductAtLeast(a / 2, b, m - 1, n);
      PowGrows(n + 1, m + n);
      SumKeepsTop(if a % 2 == 1 then b else 0, 2 * Product(a / 2, b), m + n);
    }
  }

  lemma {:induction false} Degree(a: nat) returns (m: nat)
    requires a > 0
    ensures Pow2(m) <= a < Pow2(m + 1)
  {
    if a == 1 {
      m := 0;
      assert Pow2(1) == 2;
    } else {
      var k := Degree(a / 2);
      m := k + 1;
    }
  }

  // ---------- Division ----------

  /** r is what remains of a modulo p: a polynomial of degree below n that differs from a by a multiple of p. */
  ghost predicate IsRemainder(a: nat, p: nat, n: nat, r: nat) {
    r < Pow2(n) && exists k: nat :: a == Sum(Product(k, p), r)
  }

  /** Modulo a polynomial of degree n there is one remainder. */
  lemma RemainderUnique(a: nat, p: nat, n: nat, r: nat, s: nat)
    requires Pow2(n) <= p < Pow2(n + 1)
    requires IsRemainder(a, p, n, r) && IsRemainder(a, p, n, s)
    ensures r == s
  {
    hide Sum, Product;
    var k: nat :| a == Sum(Product(k, p), r);
    var l: nat :| a == Sum(Product(l, p), s);
    SumExchange(Product(k, p), r, Product(l, p), s);
    SumSelf(a);
    DistributesLeft(k, l, p);
    var m := Sum(k, l);
    SumCancels(Product(m, p), Sum(r, s));
    SumZero(Product(m, p));
    assert Product(m, p) == Sum(r, s);
    SumBelow(r, s, n);
    if m > 0 {
      var d := Degree(m);
      ProductAtLeast(m, p, d, n);
      PowGrows(n, d + n);
      assert false;
    }
    ProductUnits(p);
    SumCancels(r, s);
    SumZero(r);
  }

  /**
   * Barrett reduction is exact: when mu is the quotient of x^(2n) by p, the n top coefficients of
   * a * mu are the quotient of a * x^n by p.
   */
  lemma BarrettExact(a: nat, p: nat, mu: nat, e: nat, n: nat)
    requires n > 0 && a < Pow2(n) && p < Pow2(n + 1) && e < Pow2(n)
    requires Up(1, n + n) == Sum(Product(mu, p), e)
    ensures Sum(Up(a, n), Product(High(Product(a, mu), n), p)) < Pow2(n)
  {
    hide Sum, Product, Up, High, Low, Pow2;
    var q, s := High(Product(a, mu), n), Low(Product(a, mu), n);
    Split(Product(a, mu), n);
    // a * x^(2n) = (a * mu) * p + a * e = (q * p) * x^n + (s * p + a * e)
    UpDistributes(a, 1, n + n);
    ProductOne(a);
    DistributesRight(a, Product(mu, p), e);
    ProductAssociates(a, mu, p);
    DistributesLeft(Up(q, n), s, p);
    UpDistributes(q, p, n);
    var rest := Sum(Product(s, p), Product(a, e));
    SumAssociates(Up(Product(q, p), n), Product(s, p), Product(a, e));
    assert Up(a, n + n) == Sum(Up(Product(q, p), n), rest);
    SumCancels(Up(Product(q, p), n), rest);
    SumCommutes(Up(Product(q, p), n), Up(a, n + n));
    UpTwice(a, n, n);
    UpDistributes(Up(a, n), Product(q, p), n);
    assert Up(Sum(Up(a, n), Product(q, p)), n) == rest;
    ProductBelow(s, p, n, n);
    ProductBelowLoose(a, e, n);
    SumBelow(Product(s, p), Product(a, e), n + n);
    UpBound(Sum(Up(a, n), Product(q, p)), n, n);
  }

  lemma {:induction false} UpTwice(a: nat, m: nat, n: nat)
    ensures Up(Up(a, m), n) == Up(a, m + n)
    decreases n
  {
    if n > 0 {
      UpTwice(a, m, n - 1);
    }
  }

  lemma ProductBelowLoose(a: nat, e: nat, n: nat)
    requires a < Pow2(n) && e < Pow2(n)
    ensures Product(a, e) < Pow2(n + n)
  {
    PowGrows(n, n + 1);
    ProductBelow(a, e, n, n);
  }
}
