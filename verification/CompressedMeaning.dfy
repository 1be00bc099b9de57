/**
 * The expansion keeps the meaning of every compressed instruction and rejects exactly the
 * encodings that are reserved or unsupported.
 */
module CompressedMeaning {
  import opened CompressedDecoder

  lemma AdditionsKeep(x: Insn)
    ensures IsAddi4spn(x) ==> Decode(ToAddi4spn(x)) == MeansAddi4spn(x)
    ensures IsAddi(x) ==> Decode(ToAddi(x)) == MeansAddi(x)
  {
  }

  lemma ImmediatesKeep(x: Insn)
    ensures IsLi(x) ==> Decode(ToLi(x)) == MeansLi(x)
    ensures IsAddi16sp(x) ==> Decode(ToAddi16sp(x)) == MeansAddi16sp(x)
    ensures IsAndi(x) ==> Decode(ToAndi(x)) == MeansAndi(x)
  {
  }

  lemma ShiftsKeep(x: Insn)
    ensures IsSrli(x) ==> Decode(ToShiftRight(x)) == MeansSrli(x)
    ensures IsSrai(x) ==> Decode(ToShiftRight(x)) == MeansSrai(x)
    ensures IsSlli(x) ==> Decode(ToSlli(x)) == MeansSlli(x)
  {
  }

  lemma RegisterFormsKeep(x: Insn)
    ensures IsSub(x) ==> Decode(ToSub(x)) == MeansSub(x)
    ensures IsXor(x) ==> Decode(ToXor(x)) == MeansXor(x)
    ensures IsOr(x) ==> Decode(ToOr(x)) == MeansOr(x)
    ensures IsAnd(x) ==> Decode(ToAnd(x)) == MeansAnd(x)
    ensures IsMv(x) ==> Decode(ToMv(x)) == MeansMv(x)
    ensures IsAddRegs(x) ==> Decode(ToAddRegs(x)) == MeansAddRegs(x)
  {
  }

  lemma MemoryKeep(x: Insn)
    ensures IsLw(x) ==> Decode(ToLw(x)) == MeansLw(x)
    ensures IsSw(x) ==> Decode(ToSw(x)) == MeansSw(x)
  {
  }

  lemma StackMemoryKeep(x: Insn)
    ensures IsLwsp(x) ==> Decode(ToLwsp(x)) == MeansLwsp(x)
    ensures IsSwsp(x) ==> Decode(ToSwsp(x)) == MeansSwsp(x)
  {
  }

  lemma LinkJumpKeep(x: Insn)
    ensures IsJal(x) ==> Decode(ToJump(x)) == MeansJal(x)
  {
  }

  lemma PlainJumpKeep(x: Insn)
    ensures IsJ(x) ==> Decode(ToJump(x)) == MeansJ(x)
  {
  }

  lemma BranchesKeep(x: Insn)
    ensures IsBeqz(x) ==> Decode(ToBranchZero(x)) == MeansBeqz(x)
    ensures IsBnez(x) ==> Decode(ToBranchZero(x)) == MeansBnez(x)
  {
  }

  lemma OthersKeep(x: Insn)
    ensures IsLui(x) ==> Decode(ToLui(x)) == MeansLui(x)
    ensures IsJr(x) ==> Decode(ToJr(x)) == MeansJr(x)
    ensures IsJalr(x) ==> Decode(ToJalr(x)) == MeansJalr(x)
    ensures IsEbreak(x) ==> Decode(ToEbreak(x)) == MeansEbreak(x)
  {
  }

  /** Expansion and listing agree on x. */
  predicate Agrees(x: Insn) {
    && (Expand(x).illegal <==> Listing16(x).Reserved?)
    && (!Expand(x).illegal ==> Decode(Expand(x).word) == Listing16(x).meaning)
  }

  lemma C0Agrees(x: Insn)
    requires x & 3 == 0
    ensures Agrees(x)
  {
    hide ToAddi4spn, ToLw, ToSw, ToAddi, ToJump, ToLi, ToAddi16sp, ToLui, ToShiftRight, ToAndi, ToSub, ToXor;
    hide ToOr, ToAnd, ToBranchZero, ToSlli, ToLwsp, ToJr, ToMv, ToEbreak, ToJalr, ToAddRegs, ToSwsp;
    hide MeansAddi4spn, MeansLw, MeansSw, MeansAddi, MeansJal, MeansLi, MeansAddi16sp, MeansLui, MeansSrli;
    hide MeansSrai, MeansAndi, MeansSub, MeansXor, MeansOr, MeansAnd, MeansJ, MeansBeqz, MeansBnez, MeansSlli;
    hide MeansLwsp, MeansJr, MeansMv, MeansEbreak, MeansJalr, MeansAddRegs, MeansSwsp, Decode;
    AdditionsKeep(x);
    MemoryKeep(x);
  }

  lemma ConstantsAgree(x: Insn)
    requires x & 0x8003 == 0x0001
    ensures Agrees(x)
  {
    hide ToAddi4spn, ToLw, ToSw, ToAddi, ToJump, ToLi, ToAddi16sp, ToLui, ToShiftRight, ToAndi, ToSub, ToXor;
    hide ToOr, ToAnd, ToBranchZero, ToSlli, ToLwsp, ToJr, ToMv, ToEbreak, ToJalr, ToAddRegs, ToSwsp;
    hide MeansAddi4spn, MeansLw, MeansSw, MeansAddi, MeansJal, MeansLi, MeansAddi16sp, MeansLui, MeansSrli;
    hide MeansSrai, MeansAndi, MeansSub, MeansXor, MeansOr, MeansAnd, MeansJ, MeansBeqz, MeansBnez, MeansSlli;
    hide MeansLwsp, MeansJr, MeansMv, MeansEbreak, MeansJalr, MeansAddRegs, MeansSwsp, Decode;
    AdditionsKeep(x);
    ImmediatesKeep(x);
    LinkJumpKeep(x);
    OthersKeep(x);
  }

  lemma ArithmeticAgrees(x: Insn)
    requires x & 0xE003 == 0x8001
    ensures Agrees(x)
  {
    hide ToAddi4spn, ToLw, ToSw, ToAddi, ToJump, ToLi, ToAddi16sp, ToLui, ToShiftRight, ToAndi, ToSub, ToXor;
    hide ToOr, ToAnd, ToBranchZero, ToSlli, ToLwsp, ToJr, ToMv, ToEbreak, ToJalr, ToAddRegs, ToSwsp;
    hide MeansAddi4spn, MeansLw, MeansSw, MeansAddi, MeansJal, MeansLi, MeansAddi16sp, MeansLui, MeansSrli;
    hide MeansSrai, MeansAndi, MeansSub, MeansXor, MeansOr, MeansAnd, MeansJ, MeansBeqz, MeansBnez, MeansSlli;
    hide MeansLwsp, MeansJr, MeansMv, MeansEbreak, MeansJalr, MeansAddRegs, MeansSwsp, Decode;
    ImmediatesKeep(x);
    ShiftsKeep(x);
    RegisterFormsKeep(x);
  }

  lemma TransfersAgree(x: Insn)
    requires x & 0x8003 == 0x8001 && x & 0xE003 != 0x8001
    ensures Agrees(x)
  {
    hide ToAddi4spn, ToLw, ToSw, ToAddi, ToJump, ToLi, ToAddi16sp, ToLui, ToShiftRight, ToAndi, ToSub, ToXor;
    hide ToOr, ToAnd, ToBranchZero, ToSlli, ToLwsp, ToJr, ToMv, ToEbreak, ToJalr, ToAddRegs, ToSwsp;
    hide MeansAddi4spn, MeansLw, MeansSw, MeansAddi, MeansJal, MeansLi, MeansAddi16sp, MeansLui, MeansSrli;
    hide MeansSrai, MeansAndi, MeansSub, MeansXor, MeansOr, MeansAnd, MeansJ, MeansBeqz, MeansBnez, MeansSlli;
    hide MeansLwsp, MeansJr, MeansMv, MeansEbreak, MeansJalr, MeansAddRegs, MeansSwsp, Decode;
    PlainJumpKeep(x);
    BranchesKeep(x);
  }

  lemma RegistersAgree(x: Insn)
    requires x & 0xE003 == 0x8002
    ensures Agrees(x)
  {
    hide ToAddi4spn, ToLw, ToSw, ToAddi, ToJump, ToLi, ToAddi16sp, ToLui, ToShiftRight, ToAndi, ToSub, ToXor;
    hide ToOr, ToAnd, ToBranchZero, ToSlli, ToLwsp, ToJr, ToMv, ToEbreak, ToJalr, ToAddRegs, ToSwsp;
    hide MeansAddi4spn, MeansLw, MeansSw, MeansAddi, MeansJal, MeansLi, MeansAddi16sp, MeansLui, MeansSrli;
    hide MeansSrai, MeansAndi, MeansSub, MeansXor, MeansOr, MeansAnd, MeansJ, MeansBeqz, MeansBnez, MeansSlli;
    hide MeansLwsp, MeansJr, MeansMv, MeansEbreak, MeansJalr, MeansAddRegs, MeansSwsp, Decode;
    OthersKeep(x);
    RegisterFormsKeep(x);
  }

  lemma StackAgrees(x: Insn)
    requires x & 0x6003 == 0x4002 || x & 0x2003 == 0x2002
    ensures Agrees(x)
  {
    hide ToAddi4spn, ToLw, ToSw, ToAddi, ToJump, ToLi, ToAddi16sp, ToLui, ToShiftRight, ToAndi, ToSub, ToXor;
    hide ToOr, ToAnd, ToBranchZero, ToSlli, ToLwsp, ToJr, ToMv, ToEbreak, ToJalr, ToAddRegs, ToSwsp;
    hide MeansAddi4spn, MeansLw, MeansSw, MeansAddi, MeansJal, MeansLi, MeansAddi16sp, MeansLui, MeansSrli;
    hide MeansSrai, MeansAndi, MeansSub, MeansXor, MeansOr, MeansAnd, MeansJ, MeansBeqz, MeansBnez, MeansSlli;
    hide MeansLwsp, MeansJr, MeansMv, MeansEbreak, MeansJalr, MeansAddRegs, MeansSwsp, Decode;
    StackMemoryKeep(x);
  }

  lemma LeftShiftAgrees(x: Insn)
    requires x & 0xE003 == 0x0002
    ensures Agrees(x)
  {
    hide ToAddi4spn, ToLw, ToSw, ToAddi, ToJump, ToLi, ToAddi16sp, ToLui, ToShiftRight, ToAndi, ToSub, ToXor;
    hide ToOr, ToAnd, ToBranchZero, ToSlli, ToLwsp, ToJr, ToMv, ToEbreak, ToJalr, ToAddRegs, ToSwsp;
    hide MeansAddi4spn, MeansLw, MeansSw, MeansAddi, MeansJal, MeansLi, MeansAddi16sp, MeansLui, MeansSrli;
    hide MeansSrai, MeansAndi, MeansSub, MeansXor, MeansOr, MeansAnd, MeansJ, MeansBeqz, MeansBnez, MeansSlli;
    hide MeansLwsp, MeansJr, MeansMv, MeansEbreak, MeansJalr, MeansAddRegs, MeansSwsp, Decode;
    ShiftsKeep(x);
  }

  /** What any fetched word means, in its own size. */
  function MeaningOf(x: Insn): Meaning {
    if !IsCompressed(x) then Decode(x)
    else if Listing16(x).Listed? then Listing16(x).meaning else UNLISTED
  }

  /** A full-size word passes as it is and is never rejected here. */
  lemma FullSizePasses(x: Insn)
    requires !IsCompressed(x)
    ensures Expand(x) == Expansion(x, false)
  {
    hide ExpandC0, ExpandC1, ExpandC2;
  }

  /**
   * For every word: it is rejected exactly when it is compressed and its encoding is reserved or
   * unsupported; otherwise the result is a full-size word with the same operation, registers and
   * immediate, the word itself when it was full-size already, and expanding again changes nothing.
   */
  lemma ExpansionKeepsMeaning(x: Insn)
    ensures Expand(x).illegal <==> IsCompressed(x) && Listing16(x).Reserved?
    ensures !Expand(x).illegal ==>
              && Decode(Expand(x).word) == MeaningOf(x)
              && !IsCompressed(Expand(x).word)
              && (!IsCompressed(x) ==> Expand(x).word == x)
              && Expand(Expand(x).word) == Expand(x)
  {
    hide Expand, Listing16, Decode, IsCompressed;
    if IsCompressed(x) {
      CompressedKeepsMeaning(x);
      if !Expand(x).illegal {
        FullSizePasses(Expand(x).word);
      }
    } else {
      FullSizePasses(x);
    }
  }

  /**
   * Every compressed instruction is either rejected, exactly when its encoding is reserved or
   * unsupported, or expands to a 32-bit instruction with the same operation, registers and immediate.
   */
  lemma CompressedKeepsMeaning(x: Insn)
    requires IsCompressed(x)
    ensures Expand(x).illegal <==> Listing16(x).Reserved?
    ensures !Expand(x).illegal ==> Decode(Expand(x).word) == Listing16(x).meaning
    ensures !Expand(x).illegal ==> !IsCompressed(Expand(x).word)
  {
    hide Expand, Listing16, Decode;
    if x & 3 == 0 {
      C0Agrees(x);
    } else if x & 3 == 1 {
      if x & 0x8000 == 0 {
        ConstantsAgree(x);
      } else if x & 0xE000 == 0x8000 {
        ArithmeticAgrees(x);
      } else {
        TransfersAgree(x);
      }
    } else {
      assert x & 3 == 2;
      if x & 0xE000 == 0x8000 {
        RegistersAgree(x);
      } else if x & 0xE000 == 0 {
        LeftShiftAgrees(x);
      } else {
        StackAgrees(x);
      }
    }
    if !Expand(x).illegal {
      ExpansionIsFull(x);
    }
  }

  /** Legal expansions are full-size instructions. */
  lemma ExpansionIsFull(x: Insn)
    requires IsCompressed(x) && !Expand(x).illegal
    ensures !IsCompressed(Expand(x).word)
  {
  }
}
