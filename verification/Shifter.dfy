/**
 * The one 33-bit right shifter behind every shift, rotate and funnel shift. Left shifts go
 * through bit reversal; rotates and funnel shifts take two cycles with an intermediate register.
 */
module Shifter {
  import opened Binary
  import opened Bits

  datatype ShiftOp = Sll | Srl | Sra | Slo | Sro | Rol | Ror | Fsl | Fsr

  /** Value of the five low bits. */
  function Low5(w: Word): (v: nat)
    ensures v < 32
  {
    Weigh(w[0], 1) + Weigh(w[1], 2) + Weigh(w[2], 4) + Weigh(w[3], 8) + Weigh(w[4], 16)
  }

  predicate Funnel(op: ShiftOp) {
    op.Fsl? || op.Fsr?
  }

  /** shift_amt[5]: exchanges the roles of the two cycles of a funnel shift. */
  predicate WordSwap(op: ShiftOp, b: Word) {
    b[5] && Funnel(op)
  }

  /** shift_amt_compl[4:0]: 32 - n, cut to five bits. */
  function Complement(n: nat): nat
    requires n < 32
  {
    if n == 0 then 0 else 32 - n
  }

  /** shift_amt[4:0] */
  function ShiftAmount(op: ShiftOp, b: Word, first: bool): (n: nat)
    ensures n < 32
  {
    if first == WordSwap(op, b) then Complement(Low5(b)) else Low5(b)
  }

  predicate ShiftsLeft(op: ShiftOp, b: Word, first: bool) {
    match op
    case Sll | Slo => true
    case Rol => first
    case Ror => !first
    case Fsl => first != WordSwap(op, b)
    case Fsr => first == WordSwap(op, b)
    case Srl | Sra | Sro => false
  }

  /** Right shift that feeds in copies of a 33rd bit. */
  function ShiftRight33(top: bool, x: Word, n: nat): Word {
    seq(32, i requires 0 <= i < 32 => if i + n < 32 then x[i + n] else top)
  }

  /** shift_result in one cycle. */
  function ShiftResult(op: ShiftOp, a: Word, b: Word, first: bool): Word {
    var left := ShiftsLeft(op, b, first);
    var operand := if left then Rev(a) else a;
    var top := op.Slo? || op.Sro? || (op.Sra? && operand[31]);
    var shifted := ShiftRight33(top, operand, ShiftAmount(op, b, first));
    if left then Rev(shifted) else shifted
  }

  /** Second cycle: combines the stored half with the half made now. */
  function SecondCycle(op: ShiftOp, a: Word, b: Word, stored: Word): Word {
    if ShiftAmount(op, b, false) == 0 then
      if WordSwap(op, b) then a else stored
    else
      Or(stored, ShiftResult(op, a, b, false))
  }

  // ---------- One-line definitions ----------

  /** The bits that enter at the vacated end. */
  function Fill(op: ShiftOp, a: Word): bool {
    op.Slo? || op.Sro? || (op.Sra? && a[31])
  }

  function ShiftSpec(op: ShiftOp, a: Word, n: nat): Word
    requires op.Sll? || op.Srl? || op.Sra? || op.Slo? || op.Sro?
  {
    seq(32, i requires 0 <= i < 32 =>
      var from := if op.Sll? || op.Slo? then i - n else i + n;
      if 0 <= from < 32 then a[from] else Fill(op, a))
  }

  /** An index that ran off either end of a ring of m positions by less than one turn. */
  function Around(i: int, m: nat): int {
    if i < 0 then i + m else if i >= m then i - m else i
  }

  /** Rotation by n. */
  function RotateSpec(op: ShiftOp, a: Word, n: nat): Word
    requires (op.Rol? || op.Ror?) && n < 32
  {
    seq(32, i requires 0 <= i < 32 => a[Around(if op.Rol? then i - n else i + n, 32)])
  }

  /**
   * FSL: the upper word of {rs1, rs3} rotated left by n; FSR: the lower word of {rs3, rs1}
   * rotated right by n, for a six-bit n.
   */
  function FunnelSpec(op: ShiftOp, rs1: Word, rs3: Word, n: nat): Word
    requires Funnel(op) && n < 64
  {
    var pair := if op.Fsl? then rs3 + rs1 else rs1 + rs3;
    seq(32, i requires 0 <= i < 32 => pair[Around(if op.Fsl? then i + 32 - n else i + n, 64)])
  }

  // ---------- The shift amount ----------

  /** Bits from..upTo of b are the binary digits of n, lowest first. */
  predicate Spells(b: Word, from: nat, upTo: nat, n: nat)
    requires from <= upTo <= 32
    decreases upTo - from
  {
    if from == upTo then n == 0 else (b[from] <==> n % 2 == 1) && Spells(b, from + 1, upTo, n / 2)
  }

  /** Every stretch of bits spells a number. */
  lemma {:induction false} SpellsSome(b: Word, from: nat, upTo: nat) returns (n: nat)
    requires from <= upTo <= 32
    ensures Spells(b, from, upTo, n)
    decreases upTo - from
  {
    if from == upTo {
      n := 0;
    } else {
      var rest := SpellsSome(b, from + 1, upTo);
      n := Digit(b[from]) + 2 * rest;
      assert n / 2 == rest;
    }
  }

  lemma SpellsStep(b: Word, from: nat, upTo: nat, n: nat)
    requires from < upTo <= 32 && Spells(b, from, upTo, n)
    ensures n == Digit(b[from]) + 2 * (n / 2) && Spells(b, from + 1, upTo, n / 2)
  {
  }

  lemma SpellsNothing(b: Word, k: nat, n: nat)
    requires k <= 32 && Spells(b, k, k, n)
    ensures n == 0
  {
  }

  /** Low5 reads the number that the five low bits spell. */
  lemma Low5Reads(b: Word, n: nat)
    requires Spells(b, 0, 5, n)
    ensures Low5(b) == n
  {
    hide Spells;
    SpellsStep(b, 0, 5, n);
    SpellsStep(b, 1, 5, n / 2);
    SpellsStep(b, 2, 5, n / 2 / 2);
    SpellsStep(b, 3, 5, n / 2 / 2 / 2);
    SpellsStep(b, 4, 5, n / 2 / 2 / 2 / 2);
    SpellsNothing(b, 5, n / 2 / 2 / 2 / 2 / 2);
  }

  /** With bit 5 it reads the number that the six low bits spell. */
  lemma SixBits(b: Word, n: nat)
    requires Spells(b, 0, 6, n)
    ensures Low5(b) + (if b[5] then 32 else 0) == n
  {
    hide Spells;
    SpellsStep(b, 0, 6, n);
    SpellsStep(b, 1, 6, n / 2);
    SpellsStep(b, 2, 6, n / 2 / 2);
    SpellsStep(b, 3, 6, n / 2 / 2 / 2);
    SpellsStep(b, 4, 6, n / 2 / 2 / 2 / 2);
    SpellsStep(b, 5, 6, n / 2 / 2 / 2 / 2 / 2);
    SpellsNothing(b, 6, n / 2 / 2 / 2 / 2 / 2 / 2);
  }

  // ---------- The shifter meets them ----------

  /** Reversing, shifting right and reversing again is a left shift. */
  lemma ShiftResultBit(op: ShiftOp, a: Word, b: Word, first: bool, i: nat)
    requires i < 32
    ensures var n := ShiftAmount(op, b, first);
            var from := if ShiftsLeft(op, b, first) then i - n else i + n;
            ShiftResult(op, a, b, first)[i] == if 0 <= from < 32 then a[from] else Fill(op, a)
  {
    hide Low5, ShiftAmount;
  }

  /** SLL, SRL, SRA, SLO and SRO shift by n, the number in the five low bits of b. */
  lemma SingleCycle(op: ShiftOp, a: Word, b: Word, n: nat)
    requires op.Sll? || op.Srl? || op.Sra? || op.Slo? || op.Sro?
    requires Spells(b, 0, 5, n)
    ensures n < 32 && ShiftResult(op, a, b, true) == ShiftSpec(op, a, n)
  {
    hide ShiftResult, Low5, Spells;
    Low5Reads(b, n);
    forall i | 0 <= i < 32
      ensures ShiftResult(op, a, b, true)[i] == ShiftSpec(op, a, n)[i]
    {
      ShiftResultBit(op, a, b, true, i);
    }
  }

  /** A combined bit comes from exactly one of the two cycles. */
  lemma SecondCycleBit(op: ShiftOp, a: Word, b: Word, stored: Word, i: nat)
    requires i < 32
    ensures SecondCycle(op, a, b, stored)[i] <==>
            if ShiftAmount(op, b, false) == 0 then
              if WordSwap(op, b) then a[i] else stored[i]
            else
              stored[i] || ShiftResult(op, a, b, false)[i]
  {
    hide ShiftResult, Low5;
  }

  /** Two cycles of ROL or ROR rotate by n, the number in the five low bits of b, zero included. */
  lemma RotateTwoCycles(op: ShiftOp, rs1: Word, b: Word, n: nat)
    requires op.Rol? || op.Ror?
    requires Spells(b, 0, 5, n)
    ensures n < 32 && SecondCycle(op, rs1, b, ShiftResult(op, rs1, b, true)) == RotateSpec(op, rs1, n)
  {
    hide ShiftResult, Low5, SecondCycle, Spells;
    Low5Reads(b, n);
    var stored := ShiftResult(op, rs1, b, true);
    forall i | 0 <= i < 32
      ensures SecondCycle(op, rs1, b, stored)[i] == RotateSpec(op, rs1, n)[i]
    {
      SecondCycleBit(op, rs1, b, stored, i);
      ShiftResultBit(op, rs1, b, true, i);
      ShiftResultBit(op, rs1, b, false, i);
      var m: int := n;
      assert RotateSpec(op, rs1, n)[i] == if op.Rol? then rs1[Around(i - m, 32)] else rs1[Around(i + m, 32)];
    }
  }

  /**
   * Two cycles of FSL or FSR, with rs1 first and rs3 second, are the 64-bit funnel by n, the number in
   * the six low bits of b, for all 64 amounts.
   */
  lemma FunnelTwoCycles(op: ShiftOp, rs1: Word, rs3: Word, b: Word, n: nat)
    requires Funnel(op)
    requires Spells(b, 0, 6, n)
    ensures n < 64 && SecondCycle(op, rs3, b, ShiftResult(op, rs1, b, true)) == FunnelSpec(op, rs1, rs3, n)
  {
    hide ShiftResult, Low5, SecondCycle, Spells;
    SixBits(b, n);
    var stored := ShiftResult(op, rs1, b, true);
    forall i | 0 <= i < 32
      ensures SecondCycle(op, rs3, b, stored)[i] == FunnelSpec(op, rs1, rs3, n)[i]
    {
      SecondCycleBit(op, rs3, b, stored, i);
      ShiftResultBit(op, rs1, b, true, i);
      ShiftResultBit(op, rs3, b, false, i);
      assert FunnelSpec(op, rs1, rs3, n)[i]
          == if op.Fsl? then (rs3 + rs1)[Around(i + 32 - n, 64)] else (rs1 + rs3)[Around(i + n, 64)];
    }
  }

  // ---------- Operation by operation ----------

  lemma ShiftSpecBit(op: ShiftOp, a: Word, n: nat, i: nat)
    requires op.Sll? || op.Srl? || op.Sra? || op.Slo? || op.Sro?
    requires i < 32
    ensures ShiftSpec(op, a, n)[i] ==
            (var from := if op.Sll? || op.Slo? then i - n else i + n; if 0 <= from < 32 then a[from] else Fill(op, a))
  {
  }

  lemma RotateSpecBit(op: ShiftOp, a: Word, n: nat, i: nat)
    requires (op.Rol? || op.Ror?) && n < 32 && i < 32
    ensures RotateSpec(op, a, n)[i] == a[Around(if op.Rol? then i - n else i + n, 32)]
  {
  }

  lemma FunnelSpecBit(op: ShiftOp, rs1: Word, rs3: Word, n: nat, i: nat)
    requires Funnel(op) && n < 64 && i < 32
    ensures var pair := if op.Fsl? then rs3 + rs1 else rs1 + rs3;
      FunnelSpec(op, rs1, rs3, n)[i] == pair[Around(if op.Fsl? then i + 32 - n else i + n, 64)]
  {
  }

  /** The five shifts by n. */
  lemma ShiftBits(a: Word, b: Word, n: nat, i: nat)
    requires Spells(b, 0, 5, n) && i < 32
    ensures ShiftResult(Sll, a, b, true)[i] <==> i >= n && a[i - n]
    ensures ShiftResult(Slo, a, b, true)[i] <==> (i >= n ==> a[i - n])
    ensures ShiftResult(Srl, a, b, true)[i] <==> i + n < 32 && a[i + n]
    ensures ShiftResult(Sro, a, b, true)[i] <==> (i + n < 32 ==> a[i + n])
    ensures ShiftResult(Sra, a, b, true)[i] <==> a[if i + n < 32 then i + n else 31]
  {
    hide ShiftResult, Spells, ShiftSpec;
    SingleCycle(Sll, a, b, n);
    SingleCycle(Slo, a, b, n);
    SingleCycle(Srl, a, b, n);
    SingleCycle(Sro, a, b, n);
    SingleCycle(Sra, a, b, n);
    ShiftSpecBit(Sll, a, n, i);
    ShiftSpecBit(Slo, a, n, i);
    ShiftSpecBit(Srl, a, n, i);
    ShiftSpecBit(Sro, a, n, i);
    ShiftSpecBit(Sra, a, n, i);
  }

  /** Bit i comes from n positions below for ROL, from n positions above for ROR, around the word. */
  lemma RotateBits(a: Word, b: Word, n: nat, i: nat)
    requires Spells(b, 0, 5, n) && i < 32
    ensures n < 32
    ensures SecondCycle(Rol, a, b, ShiftResult(Rol, a, b, true))[i] == a[if i >= n then i - n else i + 32 - n]
    ensures SecondCycle(Ror, a, b, ShiftResult(Ror, a, b, true))[i] == a[if i + n < 32 then i + n else i + n - 32]
  {
    hide ShiftResult, SecondCycle, Spells, RotateSpec;
    RotateTwoCycles(Rol, a, b, n);
    RotateTwoCycles(Ror, a, b, n);
    RotateSpecBit(Rol, a, n, i);
    RotateSpecBit(Ror, a, n, i);
  }

  /**
   * FSL shifts rs1 left by n and fills from the top of rs3, FSR shifts rs1 right by n and fills from the
   * bottom of rs3; from 32 on the two words change places.
   */
  lemma FunnelBits(rs1: Word, rs3: Word, b: Word, n: nat, i: nat)
    requires Spells(b, 0, 6, n) && i < 32
    ensures n < 64
    ensures var near, far, m := if n < 32 then rs1 else rs3, if n < 32 then rs3 else rs1, if n < 32 then n else n - 32;
      && SecondCycle(Fsl, rs3, b, ShiftResult(Fsl, rs1, b, true))[i]
         == (if i >= m then near[i - m] else far[i + 32 - m])
      && SecondCycle(Fsr, rs3, b, ShiftResult(Fsr, rs1, b, true))[i]
         == (if i + m < 32 then near[i + m] else far[i + m - 32])
  {
    hide ShiftResult, SecondCycle, Spells, FunnelSpec;
    FunnelTwoCycles(Fsl, rs1, rs3, b, n);
    FunnelTwoCycles(Fsr, rs1, rs3, b, n);
    FunnelSpecBit(Fsl, rs1, rs3, n, i);
    FunnelSpecBit(Fsr, rs1, rs3, n, i);
  }
}
