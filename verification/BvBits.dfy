/** Bits of a 32-bit machine word, by a five-bit index. */
module BvBits {
  type Index = bv5

  predicate Bit(x: bv32, i: Index) {
    (x >> i) & 1 == 1
  }

  /** A position where two different words differ, found by halving. */
  function Difference(x: bv32, y: bv32): (d: Index)
    requires x != y
    ensures Bit(x, d) != Bit(y, d)
  {
    var e := x ^ y;
    var d4: Index := if e & 0xFFFF == 0 then 16 else 0;
    var e4 := e >> d4;
    var d3: Index := if e4 & 0xFF == 0 then 8 else 0;
    var e3 := e4 >> d3;
    var d2: Index := if e3 & 0xF == 0 then 4 else 0;
    var e2 := e3 >> d2;
    var d1: Index := if e2 & 3 == 0 then 2 else 0;
    var e1 := e2 >> d1;
    var d0: Index := if e1 & 1 == 0 then 1 else 0;
    d4 | d3 | d2 | d1 | d0
  }

  lemma NoBits(i: Index)
    ensures !Bit(0, i)
  {
  }
}
