/**
 * Compressed instructions: the expansion to 32 bits, the listing of what each compressed encoding
 * means, and the meaning of the 32-bit formats it expands to.
 */
module CompressedDecoder {
  type Insn = bv32

  datatype Operation =
    | Addi | Slli | Srli | Srai | Andi | Add | Sub | Xor | Or | And | Lui | Lw | Sw | Jal | Jalr | Beq | Bne | Ebreak
    | Unlisted

  /** An operation with its register numbers and its sign-extended immediate; 0 where it has none. */
  datatype Meaning = Meaning(op: Operation, rd: bv32, rs1: bv32, rs2: bv32, imm: bv32)

  // ---------------------------------------------------------------------------------------------
  // 32-bit formats

  function Opcode(y: Insn): bv32 { y & 0x7F }
  function Funct3(y: Insn): bv32 { (y >> 12) & 7 }
  function Funct7(y: Insn): bv32 { y >> 25 }
  function Rd(y: Insn): bv32 { (y >> 7) & 0x1F }
  function Rs1(y: Insn): bv32 { (y >> 15) & 0x1F }
  function Rs2(y: Insn): bv32 { (y >> 20) & 0x1F }

  function SignBits(y: Insn, ones: bv32): bv32 {
    if y & 0x8000_0000 != 0 then ones else 0
  }

  function ImmI(y: Insn): bv32 { SignBits(y, 0xFFFF_F000) | (y >> 20) }
  function ImmS(y: Insn): bv32 { SignBits(y, 0xFFFF_F000) | ((y >> 25) << 5) | ((y >> 7) & 0x1F) }
  function ImmB(y: Insn): bv32 {
    SignBits(y, 0xFFFF_F000) | (((y >> 7) & 1) << 11) | (((y >> 25) & 0x3F) << 5) | (((y >> 8) & 0xF) << 1)
  }
  function ImmU(y: Insn): bv32 { y & 0xFFFF_F000 }
  function ImmJ(y: Insn): bv32 {
    SignBits(y, 0xFFF0_0000) | (y & 0xF_F000) | (((y >> 20) & 1) << 11) | (((y >> 21) & 0x3FF) << 1)
  }

  const UNLISTED := Meaning(Unlisted, 0, 0, 0, 0)

  function OpImmOperation(y: Insn): Operation {
    if Funct3(y) == 0 then Addi
    else if Funct3(y) == 7 then Andi
    else if Funct3(y) == 1 && Funct7(y) == 0 then Slli
    else if Funct3(y) == 5 && Funct7(y) == 0 then Srli
    else if Funct3(y) == 5 && Funct7(y) == 0x20 then Srai
    else Unlisted
  }

  function OpOperation(y: Insn): Operation {
    if Funct7(y) == 0x20 then (if Funct3(y) == 0 then Sub else Unlisted)
    else if Funct7(y) != 0 then Unlisted
    else if Funct3(y) == 0 then Add
    else if Funct3(y) == 4 then Xor
    else if Funct3(y) == 6 then Or
    else if Funct3(y) == 7 then And
    else Unlisted
  }

  predicate IsShift(op: Operation) {
    op.Slli? || op.Srli? || op.Srai?
  }

  /** The meaning of a 32-bit instruction, for the operations compressed instructions stand for. */
  function Decode(y: Insn): Meaning {
    if Opcode(y) == 0x13 then
      var op := OpImmOperation(y);
      if op.Unlisted? then UNLISTED else Meaning(op, Rd(y), Rs1(y), 0, if IsShift(op) then Rs2(y) else ImmI(y))
    else if Opcode(y) == 0x33 then
      if OpOperation(y).Unlisted? then UNLISTED else Meaning(OpOperation(y), Rd(y), Rs1(y), Rs2(y), 0)
    else if Opcode(y) == 0x03 && Funct3(y) == 2 then Meaning(Lw, Rd(y), Rs1(y), 0, ImmI(y))
    else if Opcode(y) == 0x23 && Funct3(y) == 2 then Meaning(Sw, 0, Rs1(y), Rs2(y), ImmS(y))
    else if Opcode(y) == 0x63 && Funct3(y) == 0 then Meaning(Beq, 0, Rs1(y), Rs2(y), ImmB(y))
    else if Opcode(y) == 0x63 && Funct3(y) == 1 then Meaning(Bne, 0, Rs1(y), Rs2(y), ImmB(y))
    else if Opcode(y) == 0x6F then Meaning(Jal, Rd(y), 0, 0, ImmJ(y))
    else if Opcode(y) == 0x67 && Funct3(y) == 0 then Meaning(Jalr, Rd(y), Rs1(y), 0, ImmI(y))
    else if Opcode(y) == 0x37 then Meaning(Lui, Rd(y), 0, 0, ImmU(y))
    else if y == 0x0010_0073 then Meaning(Ebreak, 0, 0, 0, 0)
    else UNLISTED
  }

  // ---------------------------------------------------------------------------------------------
  // Compressed fields

  function CRd(x: Insn): bv32 { (x >> 7) & 0x1F }
  function CRs2(x: Insn): bv32 { (x >> 2) & 0x1F }

  /** Three-bit register fields name x8 to x15. */
  function CRdShort(x: Insn): bv32 { ((x >> 2) & 7) | 8 }
  function CRs1Short(x: Insn): bv32 { ((x >> 7) & 7) | 8 }

  predicate IsCompressed(x: Insn) {
    x & 3 != 3
  }

  // ---------------------------------------------------------------------------------------------
  // The expansion, encoding by encoding: the fields of the 32-bit word from the top down

  /** addi rd', x2, nzuimm */
  function ToAddi4spn(x: Insn): Insn {
    (((x >> 7) & 0xf) << 26) | (((x >> 11) & 0x3) << 24) | (((x >> 5) & 0x1) << 23) | (((x >> 6) & 0x1) << 22)
    | 0x0001_0000 | 0x0000_0400 | (((x >> 2) & 0x7) << 7) | 0x13
  }

  /** lw rd', uimm(rs1') */
  function ToLw(x: Insn): Insn {
    (((x >> 5) & 0x1) << 26) | (((x >> 10) & 0x7) << 23) | (((x >> 6) & 0x1) << 22) | 0x0004_0000
    | (((x >> 7) & 0x7) << 15) | 0x0000_2400 | (((x >> 2) & 0x7) << 7) | 0x3
  }

  /** sw rs2', uimm(rs1') */
  function ToSw(x: Insn): Insn {
    (((x >> 5) & 0x1) << 26) | (((x >> 12) & 0x1) << 25) | 0x0080_0000 | (((x >> 2) & 0x7) << 20) | 0x0004_0000
    | (((x >> 7) & 0x7) << 15) | 0x0000_2000 | (((x >> 10) & 0x3) << 10) | (((x >> 6) & 0x1) << 9) | 0x23
  }

  /** addi rd, rd, imm (rd = x0: nop) */
  function ToAddi(x: Insn): Insn {
    (if x & 0x1000 != 0 then 0xFE00_0000 else 0) | (((x >> 2) & 0x1f) << 20) | (((x >> 7) & 0x1f) << 15)
    | (((x >> 7) & 0x1f) << 7) | 0x13
  }

  /** jal x1, imm and jal x0, imm */
  function ToJump(x: Insn): Insn {
    (((x >> 12) & 0x1) << 31) | (((x >> 8) & 0x1) << 30) | (((x >> 9) & 0x3) << 28) | (((x >> 6) & 0x1) << 27)
    | (((x >> 7) & 0x1) << 26) | (((x >> 2) & 0x1) << 25) | (((x >> 11) & 0x1) << 24) | (((x >> 3) & 0x7) << 21)
    | (if x & 0x1000 != 0 then 0x001F_F000 else 0) | (if x & 0x8000 == 0 then 0x80 else 0) | 0x6f
  }

  /** addi rd, x0, imm */
  function ToLi(x: Insn): Insn {
    (if x & 0x1000 != 0 then 0xFE00_0000 else 0) | (((x >> 2) & 0x1f) << 20) | (((x >> 7) & 0x1f) << 7) | 0x13
  }

  /** addi x2, x2, nzimm */
  function ToAddi16sp(x: Insn): Insn {
    (if x & 0x1000 != 0 then 0xE000_0000 else 0) | (((x >> 3) & 0x3) << 27) | (((x >> 5) & 0x1) << 26)
    | (((x >> 2) & 0x1) << 25) | (((x >> 6) & 0x1) << 24) | 0x0001_0000 | 0x0000_0100 | 0x13
  }

  /** lui rd, nzimm */
  function ToLui(x: Insn): Insn {
    (if x & 0x1000 != 0 then 0xFFFE_0000 else 0) | (((x >> 2) & 0x1f) << 12) | (((x >> 7) & 0x1f) << 7) | 0x37
  }

  /** srli rd', rd', shamt and srai rd', rd', shamt */
  function ToShiftRight(x: Insn): Insn {
    (((x >> 10) & 0x1) << 30) | (((x >> 2) & 0x1f) << 20) | 0x0004_0000 | (((x >> 7) & 0x7) << 15) | 0x0000_5400
    | (((x >> 7) & 0x7) << 7) | 0x13
  }

  /** andi rd', rd', imm */
  function ToAndi(x: Insn): Insn {
    (if x & 0x1000 != 0 then 0xFE00_0000 else 0) | (((x >> 2) & 0x1f) << 20) | 0x0004_0000
    | (((x >> 7) & 0x7) << 15) | 0x0000_7400 | (((x >> 7) & 0x7) << 7) | 0x13
  }

  /** sub rd', rd', rs2' */
  function ToSub(x: Insn): Insn {
    0x4000_0000 | 0x0080_0000 | (((x >> 2) & 0x7) << 20) | 0x0004_0000 | (((x >> 7) & 0x7) << 15) | 0x400
    | (((x >> 7) & 0x7) << 7) | 0x33
  }

  /** xor rd', rd', rs2' */
  function ToXor(x: Insn): Insn {
    0x0080_0000 | (((x >> 2) & 0x7) << 20) | 0x0004_0000 | (((x >> 7) & 0x7) << 15) | 0x4400
    | (((x >> 7) & 0x7) << 7) | 0x33
  }

  /** or rd', rd', rs2' */
  function ToOr(x: Insn): Insn {
    0x0080_0000 | (((x >> 2) & 0x7) << 20) | 0x0004_0000 | (((x >> 7) & 0x7) << 15) | 0x6400
    | (((x >> 7) & 0x7) << 7) | 0x33
  }

  /** and rd', rd', rs2' */
  function ToAnd(x: Insn): Insn {
    0x0080_0000 | (((x >> 2) & 0x7) << 20) | 0x0004_0000 | (((x >> 7) & 0x7) << 15) | 0x7400
    | (((x >> 7) & 0x7) << 7) | 0x33
  }

  /** beq rs1', x0, imm and bne rs1', x0, imm */
  function ToBranchZero(x: Insn): Insn {
    (if x & 0x1000 != 0 then 0xF000_0000 else 0) | (((x >> 5) & 0x3) << 26) | (((x >> 2) & 0x1) << 25)
    | 0x0004_0000 | (((x >> 7) & 0x7) << 15) | (((x >> 13) & 0x1) << 12) | (((x >> 10) & 0x3) << 10)
    | (((x >> 3) & 0x3) << 8) | (((x >> 12) & 0x1) << 7) | 0x63
  }

  /** slli rd, rd, shamt */
  function ToSlli(x: Insn): Insn {
    (((x >> 2) & 0x1f) << 20) | (((x >> 7) & 0x1f) << 15) | 0x0000_1000 | (((x >> 7) & 0x1f) << 7) | 0x13
  }

  /** lw rd, uimm(x2) */
  function ToLwsp(x: Insn): Insn {
    (((x >> 2) & 0x3) << 26) | (((x >> 12) & 0x1) << 25) | (((x >> 4) & 0x7) << 22) | 0x0001_0000 | 0x0000_2000
    | (((x >> 7) & 0x1f) << 7) | 0x3
  }

  /** jalr x0, 0(rs1) */
  function ToJr(x: Insn): Insn {
    (((x >> 7) & 0x1f) << 15) | 0x67
  }

  /** add rd, x0, rs2 */
  function ToMv(x: Insn): Insn {
    (((x >> 2) & 0x1f) << 20) | (((x >> 7) & 0x1f) << 7) | 0x33
  }

  /** ebreak */
  function ToEbreak(x: Insn): Insn {
    0x0010_0073
  }

  /** jalr x1, 0(rs1) */
  function ToJalr(x: Insn): Insn {
    (((x >> 7) & 0x1f) << 15) | 0x0000_0080 | 0x67
  }

  /** add rd, rd, rs2 */
  function ToAddRegs(x: Insn): Insn {
    (((x >> 2) & 0x1f) << 20) | (((x >> 7) & 0x1f) << 15) | (((x >> 7) & 0x1f) << 7) | 0x33
  }

  /** sw rs2, uimm(x2) */
  function ToSwsp(x: Insn): Insn {
    (((x >> 7) & 0x3) << 26) | (((x >> 12) & 0x1) << 25) | (((x >> 2) & 0x1f) << 20) | 0x0001_0000 | 0x0000_2000
    | (((x >> 9) & 0x7) << 9) | 0x23
  }

  datatype Expansion = Expansion(word: Insn, illegal: bool)

  function Top3(x: Insn): bv32 { (x >> 13) & 7 }
  function Mid2(x: Insn): bv32 { (x >> 10) & 3 }
  function Low2(x: Insn): bv32 { (x >> 5) & 3 }
  predicate Bit12(x: Insn) { x & 0x1000 != 0 }
  predicate NoRd(x: Insn) { x & 0xF80 == 0 }
  predicate NoRs2(x: Insn) { x & 0x7C == 0 }
  predicate NoImm6(x: Insn) { x & 0x107C == 0 }

  function ExpandC0(x: Insn): Expansion {
    if Top3(x) == 0 then Expansion(ToAddi4spn(x), x & 0x1FE0 == 0)
    else if Top3(x) == 2 then Expansion(ToLw(x), false)
    else if Top3(x) == 6 then Expansion(ToSw(x), false)
    else Expansion(x, true)
  }

  function ExpandArithmetic(x: Insn): Expansion {
    if Mid2(x) == 0 || Mid2(x) == 1 then Expansion(ToShiftRight(x), Bit12(x))
    else if Mid2(x) == 2 then Expansion(ToAndi(x), false)
    else if Bit12(x) then Expansion(x, true)
    else if Low2(x) == 0 then Expansion(ToSub(x), false)
    else if Low2(x) == 1 then Expansion(ToXor(x), false)
    else if Low2(x) == 2 then Expansion(ToOr(x), false)
    else Expansion(ToAnd(x), false)
  }

  function ExpandC1(x: Insn): Expansion {
    if Top3(x) == 0 then Expansion(ToAddi(x), false)
    else if Top3(x) == 1 || Top3(x) == 5 then Expansion(ToJump(x), false)
    else if Top3(x) == 2 then Expansion(ToLi(x), false)
    else if Top3(x) == 3 then Expansion(if CRd(x) == 2 then ToAddi16sp(x) else ToLui(x), NoImm6(x))
    else if Top3(x) == 4 then ExpandArithmetic(x)
    else Expansion(ToBranchZero(x), false)
  }

  function ExpandRegisters(x: Insn): Expansion {
    if !Bit12(x) then
      if !NoRs2(x) then Expansion(ToMv(x), false) else Expansion(ToJr(x), NoRd(x))
    else
      if !NoRs2(x) then Expansion(ToAddRegs(x), false)
      else if NoRd(x) then Expansion(ToEbreak(x), false) else Expansion(ToJalr(x), false)
  }

  function ExpandC2(x: Insn): Expansion {
    if Top3(x) == 0 then Expansion(ToSlli(x), Bit12(x))
    else if Top3(x) == 2 then Expansion(ToLwsp(x), NoRd(x))
    else if Top3(x) == 4 then ExpandRegisters(x)
    else if Top3(x) == 6 then Expansion(ToSwsp(x), false)
    else Expansion(x, true)
  }

  /** instr_o and illegal_instr_o */
  function Expand(x: Insn): Expansion {
    if x & 3 == 0 then ExpandC0(x)
    else if x & 3 == 1 then ExpandC1(x)
    else if x & 3 == 2 then ExpandC2(x)
    else Expansion(x, false)
  }

  // ---------------------------------------------------------------------------------------------
  // The listing of compressed instructions

  predicate IsAddi4spn(x: Insn) { x & 0xE003 == 0x0 }
  predicate IsLw(x: Insn) { x & 0xE003 == 0x4000 }
  predicate IsSw(x: Insn) { x & 0xE003 == 0xc000 }
  predicate IsAddi(x: Insn) { x & 0xE003 == 0x1 }
  predicate IsJal(x: Insn) { x & 0xE003 == 0x2001 }
  predicate IsLi(x: Insn) { x & 0xE003 == 0x4001 }
  predicate IsAddi16sp(x: Insn) { x & 0xE003 == 0x6001 && x & 0xF80 == 0x100 }
  predicate IsLui(x: Insn) { x & 0xE003 == 0x6001 && x & 0xF80 != 0x100 }
  predicate IsSrli(x: Insn) { x & 0xEC03 == 0x8001 }
  predicate IsSrai(x: Insn) { x & 0xEC03 == 0x8401 }
  predicate IsAndi(x: Insn) { x & 0xEC03 == 0x8801 }
  predicate IsSub(x: Insn) { x & 0xFC63 == 0x8c01 }
  predicate IsXor(x: Insn) { x & 0xFC63 == 0x8c21 }
  predicate IsOr(x: Insn) { x & 0xFC63 == 0x8c41 }
  predicate IsAnd(x: Insn) { x & 0xFC63 == 0x8c61 }
  predicate IsJ(x: Insn) { x & 0xE003 == 0xa001 }
  predicate IsBeqz(x: Insn) { x & 0xE003 == 0xc001 }
  predicate IsBnez(x: Insn) { x & 0xE003 == 0xe001 }
  predicate IsSlli(x: Insn) { x & 0xE003 == 0x2 }
  predicate IsLwsp(x: Insn) { x & 0xE003 == 0x4002 }
  predicate IsJr(x: Insn) { x & 0xF07F == 0x8002 }
  predicate IsMv(x: Insn) { x & 0xF003 == 0x8002 && x & 0x7C != 0 }
  predicate IsEbreak(x: Insn) { x & 0xFFFF == 0x9002 }
  predicate IsJalr(x: Insn) { x & 0xF07F == 0x9002 && x & 0xF80 != 0 }
  predicate IsAddRegs(x: Insn) { x & 0xF003 == 0x9002 && x & 0x7C != 0 }
  predicate IsSwsp(x: Insn) { x & 0xE003 == 0xc002 }

  datatype Listing = Reserved | Listed(meaning: Meaning)

  /** What a compressed instruction means, or that its encoding is reserved or unsupported. */
  function Listing16(x: Insn): Listing {
    if IsAddi4spn(x) then (if x & 0x1FE0 == 0 then Reserved else Listed(MeansAddi4spn(x)))
    else if IsLw(x) then Listed(MeansLw(x))
    else if IsSw(x) then Listed(MeansSw(x))
    else if IsAddi(x) then Listed(MeansAddi(x))
    else if IsJal(x) then Listed(MeansJal(x))
    else if IsLi(x) then Listed(MeansLi(x))
    else if IsAddi16sp(x) then (if x & 0x107C == 0 then Reserved else Listed(MeansAddi16sp(x)))
    else if IsLui(x) then (if x & 0x107C == 0 then Reserved else Listed(MeansLui(x)))
    else if IsSrli(x) then (if x & 0x1000 != 0 then Reserved else Listed(MeansSrli(x)))
    else if IsSrai(x) then (if x & 0x1000 != 0 then Reserved else Listed(MeansSrai(x)))
    else if IsAndi(x) then Listed(MeansAndi(x))
    else if IsSub(x) then Listed(MeansSub(x))
    else if IsXor(x) then Listed(MeansXor(x))
    else if IsOr(x) then Listed(MeansOr(x))
    else if IsAnd(x) then Listed(MeansAnd(x))
    else if IsJ(x) then Listed(MeansJ(x))
    else if IsBeqz(x) then Listed(MeansBeqz(x))
    else if IsBnez(x) then Listed(MeansBnez(x))
    else if IsSlli(x) then (if x & 0x1000 != 0 then Reserved else Listed(MeansSlli(x)))
    else if IsLwsp(x) then (if x & 0xF80 == 0 then Reserved else Listed(MeansLwsp(x)))
    else if IsJr(x) then (if x & 0xF80 == 0 then Reserved else Listed(MeansJr(x)))
    else if IsMv(x) then Listed(MeansMv(x))
    else if IsEbreak(x) then Listed(MeansEbreak(x))
    else if IsJalr(x) then Listed(MeansJalr(x))
    else if IsAddRegs(x) then Listed(MeansAddRegs(x))
    else if IsSwsp(x) then Listed(MeansSwsp(x))
    else Reserved
  }

  /** addi rd', x2, nzuimm */
  function MeansAddi4spn(x: Insn): Meaning {
    Meaning(Addi, CRdShort(x), 2, 0,
            (((x >> 11) & 0x3) << 4) | (((x >> 7) & 0xf) << 6) | (((x >> 6) & 0x1) << 2) | (((x >> 5) & 0x1) << 3))
  }

  /** lw rd', uimm(rs1') */
  function MeansLw(x: Insn): Meaning {
    Meaning(Lw, CRdShort(x), CRs1Short(x), 0,
                    (((x >> 10) & 0x7) << 3) | (((x >> 6) & 0x1) << 2) | (((x >> 5) & 0x1) << 6))
  }

  /** sw rs2', uimm(rs1') */
  function MeansSw(x: Insn): Meaning {
    Meaning(Sw, 0, CRs1Short(x), CRdShort(x),
                    (((x >> 10) & 0x7) << 3) | (((x >> 6) & 0x1) << 2) | (((x >> 5) & 0x1) << 6))
  }

  /** addi rd, rd, imm (rd = x0: nop) */
  function MeansAddi(x: Insn): Meaning {
    Meaning(Addi, CRd(x), CRd(x), 0, (if x & 0x1000 != 0 then 0xFFFF_FFE0 else 0) | ((x >> 2) & 0x1f))
  }

  /** jal x1, imm and jal x0, imm */
  function MeansJal(x: Insn): Meaning {
    Meaning(Jal, 1, 0, 0,
                    (if x & 0x1000 != 0 then 0xFFFF_F800 else 0) | (((x >> 11) & 0x1) << 4) | (((x >> 9) & 0x3) << 8)
            | (((x >> 8) & 0x1) << 10) | (((x >> 7) & 0x1) << 6) | (((x >> 6) & 0x1) << 7) | (((x >> 3) & 0x7) << 1)
            | (((x >> 2) & 0x1) << 5))
  }

  /** addi rd, x0, imm */
  function MeansLi(x: Insn): Meaning {
    Meaning(Addi, CRd(x), 0, 0, (if x & 0x1000 != 0 then 0xFFFF_FFE0 else 0) | ((x >> 2) & 0x1f))
  }

  /** addi x2, x2, nzimm */
  function MeansAddi16sp(x: Insn): Meaning {
    Meaning(Addi, 2, 2, 0,
                    (if x & 0x1000 != 0 then 0xFFFF_FE00 else 0) | (((x >> 6) & 0x1) << 4) | (((x >> 5) & 0x1) << 6)
            | (((x >> 3) & 0x3) << 7) | (((x >> 2) & 0x1) << 5))
  }

  /** lui rd, nzimm */
  function MeansLui(x: Insn): Meaning {
    Meaning(Lui, CRd(x), 0, 0, (if x & 0x1000 != 0 then 0xFFFE_0000 else 0) | (((x >> 2) & 0x1f) << 12))
  }

  /** srli rd', rd', shamt and srai rd', rd', shamt */
  function MeansSrli(x: Insn): Meaning {
    Meaning(Srli, CRs1Short(x), CRs1Short(x), 0, ((x >> 2) & 0x1f))
  }

  /** srai rd', rd', shamt */
  function MeansSrai(x: Insn): Meaning {
    Meaning(Srai, CRs1Short(x), CRs1Short(x), 0, ((x >> 2) & 0x1f))
  }

  /** andi rd', rd', imm */
  function MeansAndi(x: Insn): Meaning {
    Meaning(Andi, CRs1Short(x), CRs1Short(x), 0, (if x & 0x1000 != 0 then 0xFFFF_FFE0 else 0) | ((x >> 2) & 0x1f))
  }

  /** sub rd', rd', rs2' */
  function MeansSub(x: Insn): Meaning {
    Meaning(Sub, CRs1Short(x), CRs1Short(x), CRdShort(x), 0)
  }

  /** xor rd', rd', rs2' */
  function MeansXor(x: Insn): Meaning {
    Meaning(Xor, CRs1Short(x), CRs1Short(x), CRdShort(x), 0)
  }

  /** or rd', rd', rs2' */
  function MeansOr(x: Insn): Meaning {
    Meaning(Or, CRs1Short(x), CRs1Short(x), CRdShort(x), 0)
  }

  /** and rd', rd', rs2' */
  function MeansAnd(x: Insn): Meaning {
    Meaning(And, CRs1Short(x), CRs1Short(x), CRdShort(x), 0)
  }

  /** jal x0, imm */
  function MeansJ(x: Insn): Meaning {
    Meaning(Jal, 0, 0, 0,
                    (if x & 0x1000 != 0 then 0xFFFF_F800 else 0) | (((x >> 11) & 0x1) << 4) | (((x >> 9) & 0x3) << 8)
            | (((x >> 8) & 0x1) << 10) | (((x >> 7) & 0x1) << 6) | (((x >> 6) & 0x1) << 7) | (((x >> 3) & 0x7) << 1)
            | (((x >> 2) & 0x1) << 5))
  }

  /** beq rs1', x0, imm and bne rs1', x0, imm */
  function MeansBeqz(x: Insn): Meaning {
    Meaning(Beq, 0, CRs1Short(x), 0,
                    (if x & 0x1000 != 0 then 0xFFFF_FF00 else 0) | (((x >> 10) & 0x3) << 3) | (((x >> 5) & 0x3) << 6)
            | (((x >> 3) & 0x3) << 1) | (((x >> 2) & 0x1) << 5))
  }

  /** bne rs1', x0, imm */
  function MeansBnez(x: Insn): Meaning {
    Meaning(Bne, 0, CRs1Short(x), 0,
                    (if x & 0x1000 != 0 then 0xFFFF_FF00 else 0) | (((x >> 10) & 0x3) << 3) | (((x >> 5) & 0x3) << 6)
            | (((x >> 3) & 0x3) << 1) | (((x >> 2) & 0x1) << 5))
  }

  /** slli rd, rd, shamt */
  function MeansSlli(x: Insn): Meaning {
    Meaning(Slli, CRd(x), CRd(x), 0, ((x >> 2) & 0x1f))
  }

  /** lw rd, uimm(x2) */
  function MeansLwsp(x: Insn): Meaning {
    Meaning(Lw, CRd(x), 2, 0, (((x >> 12) & 0x1) << 5) | (((x >> 4) & 0x7) << 2) | (((x >> 2) & 0x3) << 6))
  }

  /** jalr x0, 0(rs1) */
  function MeansJr(x: Insn): Meaning {
    Meaning(Jalr, 0, CRd(x), 0, 0)
  }

  /** add rd, x0, rs2 */
  function MeansMv(x: Insn): Meaning {
    Meaning(Add, CRd(x), 0, CRs2(x), 0)
  }

  /** ebreak */
  function MeansEbreak(x: Insn): Meaning {
    Meaning(Ebreak, 0, 0, 0, 0)
  }

  /** jalr x1, 0(rs1) */
  function MeansJalr(x: Insn): Meaning {
    Meaning(Jalr, 1, CRd(x), 0, 0)
  }

  /** add rd, rd, rs2 */
  function MeansAddRegs(x: Insn): Meaning {
    Meaning(Add, CRd(x), CRd(x), CRs2(x), 0)
  }

  /** sw rs2, uimm(x2) */
  function MeansSwsp(x: Insn): Meaning {
    Meaning(Sw, 0, 2, CRs2(x), (((x >> 9) & 0xf) << 2) | (((x >> 7) & 0x3) << 6))
  }

}
