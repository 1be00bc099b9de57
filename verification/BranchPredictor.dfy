/**
 * The static branch predictor works on the fetched word, compressed or not. It commutes with
 * expansion: the same prediction is made before and after, and it is the one the meaning implies.
 */
module BranchPredictor {
  import opened CompressedDecoder
  import opened CompressedMeaning

  function SignBit12(x: Insn, ones: bv32): bv32 {
    if x & 0x1000 != 0 then ones else 0
  }

  function ImmCj(x: Insn): bv32 {
    SignBit12(x, 0xFFFF_F800) | (((x >> 8) & 1) << 10) | (((x >> 9) & 3) << 8) | (((x >> 6) & 1) << 7)
    | (((x >> 7) & 1) << 6) | (((x >> 2) & 1) << 5) | (((x >> 11) & 1) << 4) | (((x >> 3) & 7) << 1)
  }

  function ImmCb(x: Insn): bv32 {
    SignBit12(x, 0xFFFF_FF00) | (((x >> 5) & 3) << 6) | (((x >> 2) & 1) << 5) | (((x >> 10) & 3) << 3)
    | (((x >> 3) & 3) << 1)
  }

  predicate FullBranch(x: Insn) { Opcode(x) == 0x63 }
  predicate FullJump(x: Insn) { Opcode(x) == 0x6F }
  predicate CompressedBranch(x: Insn) { x & 3 == 1 && (Top3(x) == 6 || Top3(x) == 7) }
  predicate CompressedJump(x: Insn) { x & 3 == 1 && (Top3(x) == 5 || Top3(x) == 1) }

  function BranchImm(x: Insn): bv32 {
    if FullJump(x) then ImmJ(x) else if FullBranch(x) then ImmB(x) else if CompressedJump(x) then ImmCj(x)
    else if CompressedBranch(x) then ImmCb(x) else ImmB(x)
  }

  predicate Negative(x: bv32) {
    x & 0x8000_0000 != 0
  }

  predicate PredictTaken(x: Insn, valid: bool) {
    valid && (FullJump(x) || CompressedJump(x) || (FullBranch(x) && Negative(ImmB(x)))
              || (CompressedBranch(x) && Negative(ImmCb(x))))
  }

  function Target(pc: bv32, imm: bv32): bv32 {
    pc + imm
  }

  function PredictPc(x: Insn, pc: bv32): bv32 {
    Target(pc, BranchImm(x))
  }

  predicate IsJump(m: Meaning) { m.op.Jal? }
  predicate IsBranch(m: Meaning) { m.op.Beq? || m.op.Bne? }

  /** The four kinds are told apart: no word is of two kinds. */
  lemma KindsDisjoint(x: Insn)
    ensures !(FullBranch(x) && FullJump(x)) && !(CompressedBranch(x) && CompressedJump(x))
    ensures !((FullBranch(x) || FullJump(x)) && (CompressedBranch(x) || CompressedJump(x)))
  {
  }

  /** On a full-size word the prediction follows from its meaning. */
  lemma FullPrediction(y: Insn, valid: bool, pc: bv32)
    requires !IsCompressed(y)
    ensures var m := Decode(y);
      && (IsJump(m) ==> PredictTaken(y, valid) == valid && PredictPc(y, pc) == Target(pc, m.imm))
      && (IsBranch(m) ==> PredictTaken(y, valid) == (valid && Negative(m.imm)) && PredictPc(y, pc) == Target(pc, m.imm))
  {
    hide ImmJ, ImmB, ImmCj, ImmCb, Target, Negative;
    KindsDisjoint(y);
    FullIsNotCompressed(y);
  }

  lemma FullIsNotCompressed(y: Insn)
    requires !IsCompressed(y)
    ensures !CompressedBranch(y) && !CompressedJump(y)
  {
  }

  /** On a full-size word of any other listed operation nothing is predicted. */
  lemma FullOthers(y: Insn, valid: bool)
    requires !IsCompressed(y) && !Decode(y).op.Unlisted? && !IsJump(Decode(y)) && !IsBranch(Decode(y))
    ensures !PredictTaken(y, valid)
  {
    hide ImmJ, ImmB, ImmCj, ImmCb, Negative;
    FullIsNotCompressed(y);
  }

  /** The compressed immediates are the listed ones. */
  lemma JumpImmediates(x: Insn)
    ensures IsJal(x) ==> ImmCj(x) == MeansJal(x).imm
    ensures IsJ(x) ==> ImmCj(x) == MeansJ(x).imm
  {
    hide IsJal, IsJ, ImmCj, MeansJal, MeansJ;
    LinkImmediate(x);
    PlainImmediate(x);
  }

  lemma LinkImmediate(x: Insn)
    ensures ImmCj(x) == MeansJal(x).imm
  {
  }

  lemma PlainImmediate(x: Insn)
    ensures ImmCj(x) == MeansJ(x).imm
  {
  }

  lemma BranchImmediates(x: Insn)
    ensures IsBeqz(x) ==> ImmCb(x) == MeansBeqz(x).imm
    ensures IsBnez(x) ==> ImmCb(x) == MeansBnez(x).imm
  {
    hide IsBeqz, IsBnez, ImmCb, MeansBeqz, MeansBnez;
    EqualImmediate(x);
    UnequalImmediate(x);
  }

  lemma EqualImmediate(x: Insn)
    ensures ImmCb(x) == MeansBeqz(x).imm
  {
  }

  lemma UnequalImmediate(x: Insn)
    ensures ImmCb(x) == MeansBnez(x).imm
  {
  }

  /** The compressed kinds are exactly the listed transfers. */
  lemma CompressedKinds(x: Insn)
    requires IsCompressed(x) && Listing16(x).Listed?
    ensures var m := Listing16(x).meaning;
      && CompressedJump(x) == IsJump(m) && CompressedBranch(x) == IsBranch(m)
      && (IsJump(m) ==> IsJal(x) || IsJ(x)) && (IsBranch(m) ==> IsBeqz(x) || IsBnez(x))
      && (IsJal(x) ==> m == MeansJal(x)) && (IsJ(x) ==> m == MeansJ(x))
      && (IsBeqz(x) ==> m == MeansBeqz(x)) && (IsBnez(x) ==> m == MeansBnez(x))
      && !m.op.Unlisted?
  {
  }

  /** On a compressed instruction the prediction follows from its meaning. */
  lemma CompressedPrediction(x: Insn, valid: bool, pc: bv32)
    requires IsCompressed(x) && Listing16(x).Listed?
    ensures var m := Listing16(x).meaning;
      && PredictTaken(x, valid) == (valid && (IsJump(m) || (IsBranch(m) && Negative(m.imm))))
      && (IsJump(m) || IsBranch(m) ==> PredictPc(x, pc) == Target(pc, m.imm))
  {
    hide ImmJ, ImmB, ImmCj, ImmCb, Target, Negative, Listing16, CompressedJump, CompressedBranch;
    hide IsJal, IsJ, IsBeqz, IsBnez, MeansJal, MeansJ, MeansBeqz, MeansBnez;
    CompressedKinds(x);
    JumpImmediates(x);
    BranchImmediates(x);
    KindsDisjoint(x);
    CompressedIsNotFull(x);
  }

  lemma CompressedIsNotFull(x: Insn)
    requires IsCompressed(x)
    ensures !FullBranch(x) && !FullJump(x)
  {
  }

  lemma CompressedCommutes(x: Insn, valid: bool, pc: bv32)
    requires IsCompressed(x) && !Expand(x).illegal
    ensures PredictTaken(x, valid) == PredictTaken(Expand(x).word, valid)
    ensures var m := Listing16(x).meaning;
      && PredictTaken(x, valid) == (valid && (IsJump(m) || (IsBranch(m) && Negative(m.imm))))
      && (IsJump(m) || IsBranch(m) ==>
            PredictPc(x, pc) == PredictPc(Expand(x).word, pc) && PredictPc(x, pc) == Target(pc, m.imm))
  {
    hide Expand, Listing16, Decode, PredictTaken, PredictPc, Negative, Target, IsCompressed;
    CompressedKeepsMeaning(x);
    CompressedPrediction(x, valid, pc);
    var y, m := Expand(x).word, Listing16(x).meaning;
    if IsJump(m) || IsBranch(m) {
      FullPrediction(y, valid, pc);
    } else {
      ListedOperation(x);
      FullOthers(y, valid);
    }
  }

  /** A negative number is one from 2^31 on. */
  lemma NegativeIsLarge(imm: bv32)
    ensures Negative(imm) <==> imm >= 0x8000_0000
  {
  }

  /** A target is the PC plus the signed offset, modulo 2^32. */
  lemma TargetIsSum(pc: bv32, imm: bv32)
    ensures Target(pc, imm) == pc + imm
  {
  }

  /**
   * For every word that expands: predicting on it and on its expansion gives the same taken bit, and
   * for branches and jumps the same target. A jump is always taken, a branch exactly when its offset
   * is negative, and no other listed operation is.
   */
  lemma PredictionCommutes(x: Insn, valid: bool, pc: bv32)
    requires !Expand(x).illegal
    ensures PredictTaken(x, valid) == PredictTaken(Expand(x).word, valid)
    ensures var m := MeaningOf(x);
      && (IsJump(m) ==> PredictTaken(x, valid) == valid)
      && (IsBranch(m) ==> PredictTaken(x, valid) == (valid && Negative(m.imm)))
      && (IsJump(m) || IsBranch(m) ==>
            PredictPc(x, pc) == Target(pc, m.imm) && PredictPc(Expand(x).word, pc) == Target(pc, m.imm))
      && (!IsJump(m) && !IsBranch(m) && !m.op.Unlisted? ==> !PredictTaken(x, valid))
  {
    hide Expand, Listing16, Decode, PredictTaken, PredictPc, Negative, Target, IsCompressed;
    var m := MeaningOf(x);
    ExpansionKeepsMeaning(x);
    if IsCompressed(x) {
      CompressedCommutes(x, valid, pc);
    } else if IsJump(m) || IsBranch(m) {
      FullPrediction(x, valid, pc);
    } else if !m.op.Unlisted? {
      FullOthers(x, valid);
    }
  }

  /** Backward branches, those whose offset is at least 2^31 as an unsigned number, are taken. */
  lemma BackwardTaken(x: Insn)
    requires !Expand(x).illegal && (MeaningOf(x).op.Beq? || MeaningOf(x).op.Bne?)
    ensures PredictTaken(x, true) <==> MeaningOf(x).imm >= 0x8000_0000
    ensures !PredictTaken(x, false)
  {
    hide Expand, MeaningOf, PredictTaken, PredictPc, Target, Negative;
    PredictionCommutes(x, true, 0);
    PredictionCommutes(x, false, 0);
    NegativeIsLarge(MeaningOf(x).imm);
  }

  /**
   * By the bits of any word: JAL, C.J and C.JAL are taken, and of the branches, compressed or not,
   * exactly those whose sign bit is up.
   */
  lemma TakenExactly(x: Insn, valid: bool)
    ensures PredictTaken(x, valid) <==>
            && valid
            && (|| x & 0x7F == 0x6F || x & 0xE003 == 0xA001 || x & 0xE003 == 0x2001
                || (x & 0x7F == 0x63 && x & 0x8000_0000 != 0)
                || (x & 0xC003 == 0xC001 && x & 0x1000 != 0))
  {
    hide ImmB, ImmCb, Negative;
    CompressedSign(x);
    FullSign(x);
  }

  lemma CompressedSign(x: Insn)
    ensures Negative(ImmCb(x)) <==> x & 0x1000 != 0
  {
  }

  lemma FullSign(x: Insn)
    ensures Negative(ImmB(x)) <==> x & 0x8000_0000 != 0
  {
  }

  lemma ListedOperation(x: Insn)
    requires IsCompressed(x) && Listing16(x).Listed?
    ensures !Listing16(x).meaning.op.Unlisted?
  {
    hide Listing16, IsJal, IsJ, IsBeqz, IsBnez;
    CompressedKinds(x);
  }
}
