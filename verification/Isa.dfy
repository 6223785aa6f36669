/** The RV32IM + LR/SC instruction set as the decoder sees it: types, encoding
    table, field and immediate extraction, and decoding. */
module Isa {
  import opened Words

  type Register = r: int | 0 <= r < 32

  datatype Op =
    | ADD | SUB | XOR | OR | AND | SLL | SRL | SRA | SLT | SLTU
    | ADDI | XORI | ORI | ANDI | SLLI | SRLI | SRAI | SLTI | SLTIU
    | LB | LH | LW | LBU | LHU
    | SB | SH | SW
    | BEQ | BNE | BLT | BGE | BLTU | BGEU
    | JAL | JALR | LUI | AUIPC | ECALL | EBREAK | FENCE
    | MUL | MULH | MULHSU | MULHU | DIV | DIVU | REM | REMU
    | LR_W | SC_W | INVALID

  datatype Format = R | I | S | B | J | U

  /** One row of the encoding tables. */
  datatype Spec = Spec(op: Op, format: Format, opcode: int, useFunct3: bool, funct3: int,
                       useFunct7: bool, funct7: int, mask: Word, pattern: Word)

  /** The row of each instruction type; FENCE and INVALID have none. */
  predicate HasRow(op: Op) { op != FENCE && op != INVALID }

  function Row(op: Op): (s: Spec)
    requires HasRow(op)
    ensures s.op == op
  {
    match op
    case ADD => Spec(ADD, R, 0x33, true, 0, true, 0x00, 0, 0)
    case SUB => Spec(SUB, R, 0x33, true, 0, true, 0x20, 0, 0)
    case XOR => Spec(XOR, R, 0x33, true, 4, true, 0x00, 0, 0)
    case OR => Spec(OR, R, 0x33, true, 6, true, 0x00, 0, 0)
    case AND => Spec(AND, R, 0x33, true, 7, true, 0x00, 0, 0)
    case SLL => Spec(SLL, R, 0x33, true, 1, true, 0x00, 0, 0)
    case SRL => Spec(SRL, R, 0x33, true, 5, true, 0x00, 0, 0)
    case SRA => Spec(SRA, R, 0x33, true, 5, true, 0x20, 0, 0)
    case SLT => Spec(SLT, R, 0x33, true, 2, true, 0x00, 0, 0)
    case SLTU => Spec(SLTU, R, 0x33, true, 3, true, 0x00, 0, 0)
    case ADDI => Spec(ADDI, I, 0x13, true, 0, false, 0, 0, 0)
    case XORI => Spec(XORI, I, 0x13, true, 4, false, 0, 0, 0)
    case ORI => Spec(ORI, I, 0x13, true, 6, false, 0, 0, 0)
    case ANDI => Spec(ANDI, I, 0x13, true, 7, false, 0, 0, 0)
    case SLLI => Spec(SLLI, I, 0x13, true, 1, true, 0x00, 0, 0)
    case SRLI => Spec(SRLI, I, 0x13, true, 5, true, 0x00, 0, 0)
    case SRAI => Spec(SRAI, I, 0x13, true, 5, true, 0x20, 0, 0)
    case SLTI => Spec(SLTI, I, 0x13, true, 2, false, 0, 0, 0)
    case SLTIU => Spec(SLTIU, I, 0x13, true, 3, false, 0, 0, 0)
    case LB => Spec(LB, I, 0x03, true, 0, false, 0, 0, 0)
    case LH => Spec(LH, I, 0x03, true, 1, false, 0, 0, 0)
    case LW => Spec(LW, I, 0x03, true, 2, false, 0, 0, 0)
    case LBU => Spec(LBU, I, 0x03, true, 4, false, 0, 0, 0)
    case LHU => Spec(LHU, I, 0x03, true, 5, false, 0, 0, 0)
    case SB => Spec(SB, S, 0x23, true, 0, false, 0, 0, 0)
    case SH => Spec(SH, S, 0x23, true, 1, false, 0, 0, 0)
    case SW => Spec(SW, S, 0x23, true, 2, false, 0, 0, 0)
    case BEQ => Spec(BEQ, B, 0x63, true, 0, false, 0, 0, 0)
    case BNE => Spec(BNE, B, 0x63, true, 1, false, 0, 0, 0)
    case BLT => Spec(BLT, B, 0x63, true, 4, false, 0, 0, 0)
    case BGE => Spec(BGE, B, 0x63, true, 5, false, 0, 0, 0)
    case BLTU => Spec(BLTU, B, 0x63, true, 6, false, 0, 0, 0)
    case BGEU => Spec(BGEU, B, 0x63, true, 7, false, 0, 0, 0)
    case JAL => Spec(JAL, J, 0x6F, false, 0, false, 0, 0, 0)
    case JALR => Spec(JALR, I, 0x67, true, 0, false, 0, 0, 0)
    case LUI => Spec(LUI, U, 0x37, false, 0, false, 0, 0, 0)
    case AUIPC => Spec(AUIPC, U, 0x17, false, 0, false, 0, 0, 0)
    case ECALL => Spec(ECALL, I, 0x73, false, 0, false, 0, 0xFFF0_0000, 0)
    case EBREAK => Spec(EBREAK, I, 0x73, false, 0, false, 0, 0xFFF0_0000, 0x0010_0000)
    case MUL => Spec(MUL, R, 0x33, true, 0, true, 0x01, 0, 0)
    case MULH => Spec(MULH, R, 0x33, true, 1, true, 0x01, 0, 0)
    case MULHSU => Spec(MULHSU, R, 0x33, true, 2, true, 0x01, 0, 0)
    case MULHU => Spec(MULHU, R, 0x33, true, 3, true, 0x01, 0, 0)
    case DIV => Spec(DIV, R, 0x33, true, 4, true, 0x01, 0, 0)
    case DIVU => Spec(DIVU, R, 0x33, true, 5, true, 0x01, 0, 0)
    case REM => Spec(REM, R, 0x33, true, 6, true, 0x01, 0, 0)
    case REMU => Spec(REMU, R, 0x33, true, 7, true, 0x01, 0, 0)
    case LR_W => Spec(LR_W, R, 0x2F, true, 2, false, 0, 0xF800_0000, 0x1000_0000)
    case SC_W => Spec(SC_W, R, 0x2F, true, 2, false, 0, 0xF800_0000, 0x1800_0000)
  }

  type Listed = op: Op | HasRow(op) witness ADD

  // The tables, in the order decoding tries their rows.
  const RV32I_REGISTER: seq<Listed> := [ADD, SUB, XOR, OR, AND, SLL, SRL, SRA, SLT, SLTU]
  const RV32I_IMMEDIATE: seq<Listed> := [ADDI, XORI, ORI, ANDI, SLLI, SRLI, SRAI, SLTI, SLTIU]
  const RV32I_MEMORY: seq<Listed> := [LB, LH, LW, LBU, LHU, SB, SH, SW]
  const RV32I_CONTROL: seq<Listed> := [BEQ, BNE, BLT, BGE, BLTU, BGEU, JAL, JALR, LUI, AUIPC, ECALL, EBREAK]
  const RV32I: seq<Listed> := RV32I_REGISTER + RV32I_IMMEDIATE + RV32I_MEMORY + RV32I_CONTROL
  const RV32M: seq<Listed> := [
    MUL, MULH, MULHSU, MULHU, DIV, DIVU, REM, REMU
  ]
  const RV32A: seq<Listed> := [
    LR_W, SC_W
  ]

  // Fixed fields: `(instruction >> lo) & mask` with an all-ones mask is a quotient and a remainder.

  function Opcode(w: Word): int { w % 128 }
  function Rd(w: Word): (r: int) ensures 0 <= r < 32 { (w / 128) % 32 }
  function Funct3(w: Word): (r: int) ensures 0 <= r < 8 { (w / 0x1000) % 8 }
  function Rs1(w: Word): (r: int) ensures 0 <= r < 32 { (w / 0x8000) % 32 }
  function Rs2(w: Word): (r: int) ensures 0 <= r < 32 { (w / 0x10_0000) % 32 }
  function Funct7(w: Word): (r: int) ensures 0 <= r < 128 { (w / 0x200_0000) % 128 }
  function Funct5(w: Word): (r: int) ensures 0 <= r < 32 { (w / 0x800_0000) % 32 }

  // Immediates, with the source's own shifts and bit operators.

  function IImm(w: Word): Int32 {
    BitwiseInRange(And, w, 0xFFF0_0000);
    Signed(Bitwise(And, w, 0xFFF0_0000)) / 0x10_0000
  }

  function UImm(w: Word): Int32 {
    BitwiseInRange(And, w, 0xFFFF_F000);
    Signed(Bitwise(And, w, 0xFFFF_F000)) / 0x1000
  }

  function SImm(w: Word): Int32 {
    var imm := Bitwise(Or, (w / 128) % 32, Funct7(w) * 32);
    var extended := if Bitwise(And, imm, 0x800) != 0 then Bitwise(Or, imm, 0xFFFF_F000) else imm;
    Signed(Wrap(extended))
  }

  function BImm(w: Word): Int32 {
    var imm := Bitwise(Or, Bitwise(Or, Bitwise(Or,
      ((w / 0x8000_0000) % 2) * 0x1000,
      ((w / 128) % 2) * 0x800),
      ((w / 0x200_0000) % 64) * 32),
      ((w / 256) % 16) * 2);
    Signed(Wrap(imm * 0x8_0000)) / 0x8_0000
  }

  function JImm(w: Word): Int32 {
    var imm := Bitwise(Or, Bitwise(Or, Bitwise(Or,
      ((w / 0x8000_0000) % 2) * 0x10_0000,
      ((w / 0x1000) % 256) * 0x1000),
      ((w / 0x10_0000) % 2) * 0x800),
      ((w / 0x20_0000) % 1024) * 2);
    Signed(Wrap(imm * 0x800)) / 0x800
  }

  /** A decoded instruction; `word` is the raw encoding, 0 when it did not decode. */
  datatype Instruction = Instruction(op: Op, word: Word, imm: Int32, address: Word,
                                     rs1: Register, rs2: Register, rd: Register)

  predicate Matches(s: Spec, w: Word) {
    && Opcode(w) == s.opcode
    && (s.useFunct3 ==> Funct3(w) == s.funct3)
    && (s.useFunct7 ==> Funct7(w) == s.funct7)
    && (s.mask == 0 || Bitwise(And, w, s.mask) == s.pattern)
  }

  function Immediate(f: Format, w: Word): Int32 {
    match f
    case R => 0
    case I => IImm(w)
    case S => SImm(w)
    case B => BImm(w)
    case J => JImm(w)
    case U => UImm(w)
  }

  function FromRow(s: Spec, w: Word, address: Word): Instruction {
    Instruction(s.op, w, Immediate(s.format, w), address, Rs1(w), Rs2(w), Rd(w))
  }

  // ---- the immediates are the sign-extended fields of section 2.3 of the ISA manual ----

  function SignExtend(field: int, width: nat): int
    requires width > 0
  {
    if field < Pow2(width - 1) then field else field - Pow2(width)
  }

  lemma IImmIsField(w: Word)
    ensures IImm(w) == SignExtend(w / 0x10_0000, 12)
    ensures -2048 <= IImm(w) < 2048
  {
    hide Bitwise;
    Powers();
    AndHighMask(w, 20, 32);
    BitwiseInRange(And, w, 0xFFF0_0000);
  }

  lemma UImmIsField(w: Word)
    ensures UImm(w) == SignExtend(w / 0x1000, 20)
    ensures -0x8_0000 <= UImm(w) < 0x8_0000
  {
    hide Bitwise;
    Powers();
    AndHighMask(w, 12, 32);
    BitwiseInRange(And, w, 0xFFFF_F000);
  }

  lemma SImmIsField(w: Word)
    ensures SImm(w) == SignExtend(Funct7(w) * 32 + Rd(w), 12)
    ensures -2048 <= SImm(w) < 2048
  {
    hide Bitwise;
    Powers();
    var lo, hi := (w / 128) % 32, Funct7(w);
    BitwiseCommutes(Or, lo, hi * 32);
    OrDisjoint(hi, lo, 5);
    var imm := hi * 32 + lo;
    AndHighMask(imm, 11, 12);
    BitwiseCommutes(Or, imm, 0xFFFF_F000);
    OrDisjoint(0xF_FFFF, imm, 12);
  }

  lemma ShiftPair(x: int)
    ensures 0 <= x < 0x2000 ==> Signed(Wrap(x * 0x8_0000)) / 0x8_0000 == if x < 0x1000 then x else x - 0x2000
    ensures 0 <= x < 0x20_0000 ==> Signed(Wrap(x * 0x800)) / 0x800 == if x < 0x10_0000 then x else x - 0x20_0000
  {
  }

  /** The four B-format fields, concatenated. */
  function BFields(w: Word): (r: int)
    ensures 0 <= r < 0x2000 && r % 2 == 0
  {
    ((w / 0x8000_0000) % 2) * 0x1000 + ((w / 128) % 2) * 0x800 + ((w / 0x200_0000) % 64) * 32 + ((w / 256) % 16) * 2
  }

  lemma BFieldsJoin(w: Word)
    ensures BImm(w) == Signed(Wrap(BFields(w) * 0x8_0000)) / 0x8_0000
  {
    hide Bitwise, Signed, Wrap;
    Powers();
    var a, b, c, d := (w / 0x8000_0000) % 2, (w / 128) % 2, (w / 0x200_0000) % 64, (w / 256) % 16;
    OrDisjoint(a, b * 0x800, 12);
    OrDisjoint(a * 2 + b, c * 32, 11);
    OrDisjoint(a * 128 + b * 64 + c, d * 2, 5);
  }

  lemma BImmIsField(w: Word)
    ensures BImm(w) == SignExtend(BFields(w), 13)
    ensures -0x1000 <= BImm(w) < 0x1000 && BImm(w) % 2 == 0
  {
    hide BImm, BFields, Signed, Wrap;
    Powers();
    BFieldsJoin(w);
    ShiftPair(BFields(w));
  }

  /** The four J-format fields, concatenated. */
  function JFields(w: Word): (r: int)
    ensures 0 <= r < 0x20_0000 && r % 2 == 0
  {
    ((w / 0x8000_0000) % 2) * 0x10_0000 + ((w / 0x1000) % 256) * 0x1000 + ((w / 0x10_0000) % 2) * 0x800 + ((w / 0x20_0000) % 1024) * 2
  }

  lemma JFieldsJoin(w: Word)
    ensures JImm(w) == Signed(Wrap(JFields(w) * 0x800)) / 0x800
  {
    hide Bitwise, Signed, Wrap;
    Powers();
    var a, b, c, d := (w / 0x8000_0000) % 2, (w / 0x1000) % 256, (w / 0x10_0000) % 2, (w / 0x20_0000) % 1024;
    OrDisjoint(a, b * 0x1000, 20);
    OrDisjoint(a * 256 + b, c * 0x800, 12);
    OrDisjoint(a * 512 + b * 2 + c, d * 2, 11);
  }

  lemma JImmIsField(w: Word)
    ensures JImm(w) == SignExtend(JFields(w), 21)
    ensures -0x10_0000 <= JImm(w) < 0x10_0000 && JImm(w) % 2 == 0
  {
    hide JImm, JFields, Signed, Wrap;
    Powers();
    JFieldsJoin(w);
    ShiftPair(JFields(w));
  }

  // ---- decoding is unambiguous ----

  /** The instruction type as a function of the fields; INVALID when no row matches. */
  function Kind(w: Word): Op {
    KindOf(Opcode(w), Funct3(w), Funct7(w), Funct5(w), w / 0x10_0000)
  }

  function KindOf(opcode: int, f3: int, f7: int, f5: int, top12: int): Op {
    if opcode == 0x33 then
      if f7 == 0x00 then
        match f3 { case 0 => ADD case 1 => SLL case 2 => SLT case 3 => SLTU case 4 => XOR case 5 => SRL case 6 => OR case 7 => AND case _ => INVALID }
      else if f7 == 0x20 then
        match f3 { case 0 => SUB case 5 => SRA case _ => INVALID }
      else if f7 == 0x01 then
        match f3 { case 0 => MUL case 1 => MULH case 2 => MULHSU case 3 => MULHU case 4 => DIV case 5 => DIVU case 6 => REM case 7 => REMU case _ => INVALID }
      else INVALID
    else if opcode == 0x13 then
      match f3 {
        case 0 => ADDI case 2 => SLTI case 3 => SLTIU case 4 => XORI case 6 => ORI case 7 => ANDI
        case 1 => if f7 == 0 then SLLI else INVALID
        case 5 => if f7 == 0 then SRLI else if f7 == 0x20 then SRAI else INVALID
        case _ => INVALID
      }
    else if opcode == 0x03 then
      match f3 { case 0 => LB case 1 => LH case 2 => LW case 4 => LBU case 5 => LHU case _ => INVALID }
    else if opcode == 0x23 then
      match f3 { case 0 => SB case 1 => SH case 2 => SW case _ => INVALID }
    else if opcode == 0x63 then
      match f3 { case 0 => BEQ case 1 => BNE case 4 => BLT case 5 => BGE case 6 => BLTU case 7 => BGEU case _ => INVALID }
    else if opcode == 0x6F then JAL
    else if opcode == 0x67 then (if f3 == 0 then JALR else INVALID)
    else if opcode == 0x37 then LUI
    else if opcode == 0x17 then AUIPC
    else if opcode == 0x73 then (if top12 == 0 then ECALL else if top12 == 1 then EBREAK else INVALID)
    else if opcode == 0x2F then (if f3 == 2 && f5 == 2 then LR_W else if f3 == 2 && f5 == 3 then SC_W else INVALID)
    else INVALID
  }

  lemma MaskTests(w: Word)
    ensures Bitwise(And, w, 0xFFF0_0000) == (w / 0x10_0000) * 0x10_0000
    ensures Bitwise(And, w, 0xF800_0000) == Funct5(w) * 0x800_0000
  {
    hide Bitwise;
    Powers();
    AndHighMask(w, 20, 32);
    AndHighMask(w, 27, 32);
  }

  lemma RowKindRegister(op: Op, w: Word)
    requires HasRow(op) && Row(op).opcode == 0x33
    ensures Matches(Row(op), w) <==> Kind(w) == op
  {
    hide Bitwise, Opcode, Funct3, Funct7, Funct5;
  }

  lemma RowKindImmediate(op: Op, w: Word)
    requires HasRow(op) && Row(op).opcode == 0x13
    ensures Matches(Row(op), w) <==> Kind(w) == op
  {
    hide Bitwise, Opcode, Funct3, Funct7, Funct5;
  }

  lemma RowKindMemory(op: Op, w: Word)
    requires HasRow(op) && Row(op).opcode in {0x03, 0x23}
    ensures Matches(Row(op), w) <==> Kind(w) == op
  {
    hide Bitwise, Opcode, Funct3, Funct7, Funct5;
  }

  lemma RowKindOther(op: Op, w: Word)
    requires HasRow(op) && Row(op).opcode !in {0x33, 0x13, 0x03, 0x23}
    ensures Matches(Row(op), w) <==> Kind(w) == op
  {
    hide Bitwise, Opcode, Funct3, Funct7, Funct5;
    MaskTests(w);
  }

  /** At most one row matches any word, so the order of the tables is irrelevant. */
  lemma RowKind(op: Op, w: Word)
    requires HasRow(op)
    ensures Matches(Row(op), w) <==> Kind(w) == op
  {
    hide Matches, Kind;
    var opcode := Row(op).opcode;
    if opcode == 0x33 {
      RowKindRegister(op, w);
    } else if opcode == 0x13 {
      RowKindImmediate(op, w);
    } else if opcode in {0x03, 0x23} {
      RowKindMemory(op, w);
    } else {
      RowKindOther(op, w);
    }
  }

  function Undecoded(address: Word): Instruction {
    Instruction(INVALID, 0, 0, address, 0, 0, 0)
  }

  /** The first row that matches, in table order. */
  function Search(ops: seq<Listed>, w: Word, address: Word): Instruction
  {
    if ops == [] then Undecoded(address)
    else if Matches(Row(ops[0]), w) then FromRow(Row(ops[0]), w, address)
    else Search(ops[1..], w, address)
  }

  /** What decoding means: the one row that matches, whatever the order of the tables. */
  function Decode(w: Word, address: Word): Instruction {
    if Kind(w) == INVALID then Undecoded(address) else FromRow(Row(Kind(w)), w, address)
  }

  lemma {:induction false} SearchFinds(ops: seq<Listed>, w: Word, address: Word)
    ensures Search(ops, w, address) == if Kind(w) in ops then Decode(w, address) else Undecoded(address)
  {
    hide Matches, Row, Kind;
    if ops == [] {
    } else {
      RowKind(ops[0], w);
      if Kind(w) == ops[0] {
      } else {
        SearchFinds(ops[1..], w, address);
      }
    }
  }

  lemma TablesComplete(op: Op)
    requires HasRow(op)
    ensures op in RV32I || op in RV32M || op in RV32A
  {
    assert op in RV32I_REGISTER || op in RV32I_IMMEDIATE || op in RV32I_MEMORY || op in RV32I_CONTROL
           || op in RV32M || op in RV32A;
  }

  /** Decoder::decode: try the rows of the three tables in order and return at the first match. */
  method DecodeByTables(data: Word, address: Word) returns (instr: Instruction)
    ensures instr == Decode(data, address)
  {
    hide Matches, Row, Kind, Search, FromRow, RV32I, RV32M, RV32A;
    var lists := [RV32I, RV32M, RV32A];
    for n := 0 to 3
      invariant forall m :: 0 <= m < n ==> Kind(data) !in lists[m]
    {
      var list := lists[n];
      for k := 0 to |list|
        invariant forall j :: 0 <= j < k ==> Kind(data) != list[j]
      {
        RowKind(list[k], data);
        if Matches(Row(list[k]), data) {
          return FromRow(Row(list[k]), data, address);
        }
      }
    }
    assert Kind(data) !in lists[0] && Kind(data) !in lists[1] && Kind(data) !in lists[2];
    AbsentKind(data);
    return Undecoded(address);
  }

  lemma AbsentKind(w: Word)
    requires Kind(w) !in RV32I && Kind(w) !in RV32M && Kind(w) !in RV32A
    ensures Kind(w) == INVALID
  {
    KindHasNoFence(w);
    hide Kind, RV32I, RV32M, RV32A;
    if HasRow(Kind(w)) {
      TablesComplete(Kind(w));
    }
  }

  lemma KindHasNoFence(w: Word)
    ensures Kind(w) != FENCE
  {
    hide Opcode, Funct3, Funct7, Funct5;
  }

  // ---- decoding is lossless ----

  /** The encoding of an instruction from what decoding kept of it. */
  function Encode(op: Op, rd: int, rs1: int, rs2: int, imm: int): int
    requires HasRow(op)
  {
    var s := Row(op);
    match s.format
    case R => s.funct7 * 0x200_0000 + rs2 * 0x10_0000 + rs1 * 0x8000 + s.funct3 * 0x1000 + rd * 128 + s.opcode
    case I => (imm % 0x1000) * 0x10_0000 + rs1 * 0x8000 + s.funct3 * 0x1000 + rd * 128 + s.opcode
    case S => ((imm / 32) % 128) * 0x200_0000 + rs2 * 0x10_0000 + rs1 * 0x8000 + s.funct3 * 0x1000 + (imm % 32) * 128 + s.opcode
    case B => ((imm / 0x1000) % 2) * 0x8000_0000 + ((imm / 32) % 64) * 0x200_0000 + rs2 * 0x10_0000 + rs1 * 0x8000
              + s.funct3 * 0x1000 + ((imm / 2) % 16) * 256 + ((imm / 0x800) % 2) * 128 + s.opcode
    case U => (imm % 0x10_0000) * 0x1000 + rd * 128 + s.opcode
    case J => ((imm / 0x10_0000) % 2) * 0x8000_0000 + ((imm / 2) % 1024) * 0x20_0000 + ((imm / 0x800) % 2) * 0x10_0000
              + ((imm / 0x1000) % 256) * 0x1000 + rd * 128 + s.opcode
  }

  lemma FieldChain(w: Word)
    ensures w / 128 == 32 * (w / 0x1000) + (w / 128) % 32
    ensures w / 0x1000 == 8 * (w / 0x8000) + (w / 0x1000) % 8
    ensures w / 0x8000 == 32 * (w / 0x10_0000) + (w / 0x8000) % 32
    ensures w / 0x10_0000 == 32 * (w / 0x200_0000) + (w / 0x10_0000) % 32
    ensures w / 0x200_0000 == (w / 0x200_0000) % 128
  {
  }

  lemma FieldsCompose(w: Word)
    ensures w == Funct7(w) * 0x200_0000 + Rs2(w) * 0x10_0000 + Rs1(w) * 0x8000 + Funct3(w) * 0x1000 + Rd(w) * 128 + Opcode(w)
    ensures w / 0x10_0000 == Funct7(w) * 32 + Rs2(w)
  {
    FieldChain(w);
  }

  lemma BFieldChain(w: Word)
    ensures (w / 0x200_0000) % 128 == ((w / 0x8000_0000) % 2) * 64 + (w / 0x200_0000) % 64
    ensures (w / 128) % 32 == ((w / 256) % 16) * 2 + (w / 128) % 2
  {
    LowDigit(w / 128, 2, 16);
    LowDigit(w / 0x200_0000, 64, 2);
    assert w / 128 / 2 == w / 256 && w / 0x200_0000 / 64 == w / 0x8000_0000;
  }

  lemma LowDigit(x: int, m: int, n: int)
    requires m > 0 && n > 0
    ensures x % (m * n) == ((x / m) % n) * m + x % m
  {
    var y := x / m;
    assert x == (y / n) * (m * n) + ((y % n) * m + x % m);
    assert (y % n) * m <= (n - 1) * m;
    ModUnique(x, m * n, y / n, (y % n) * m + x % m);
  }

  lemma BDigits(a: int, b: int, c: int, d: int, n: int)
    requires 0 <= a < 2 && 0 <= b < 2 && 0 <= c < 64 && 0 <= d < 16
    requires n == a * 0x1000 + b * 0x800 + c * 32 + d * 2
    ensures (n / 0x1000) % 2 == a && (n / 0x800) % 2 == b && (n / 32) % 64 == c && (n / 2) % 16 == d
  {
    assert n / 2 == a * 0x800 + b * 0x400 + c * 16 + d;
    assert n / 32 == a * 128 + b * 64 + c;
    assert n / 0x800 == a * 2 + b;
  }

  lemma JFieldChain(w: Word)
    ensures w / 0x1000 == ((w / 0x8000_0000) % 2) * 0x8_0000 + ((w / 0x20_0000) % 1024) * 0x200
                          + ((w / 0x10_0000) % 2) * 0x100 + (w / 0x1000) % 256
  {
    assert w / 0x1000 == 256 * (w / 0x10_0000) + (w / 0x1000) % 256;
    assert w / 0x10_0000 == 2 * (w / 0x20_0000) + (w / 0x10_0000) % 2;
    assert w / 0x20_0000 == 1024 * (w / 0x8000_0000) + (w / 0x20_0000) % 1024;
  }

  lemma JDigits(a: int, b: int, c: int, d: int, n: int)
    requires 0 <= a < 2 && 0 <= b < 256 && 0 <= c < 2 && 0 <= d < 1024
    requires n == a * 0x10_0000 + b * 0x1000 + c * 0x800 + d * 2
    ensures (n / 0x10_0000) % 2 == a && (n / 0x1000) % 256 == b && (n / 0x800) % 2 == c && (n / 2) % 1024 == d
  {
    assert n / 2 == a * 0x8_0000 + b * 0x800 + c * 0x400 + d;
    assert n / 0x800 == a * 0x200 + b * 2 + c;
    assert n / 0x1000 == a * 0x100 + b;
  }

  lemma BFieldsSplit(w: Word)
    ensures Funct7(w) == ((BFields(w) / 0x1000) % 2) * 64 + (BFields(w) / 32) % 64
    ensures Rd(w) == ((BFields(w) / 2) % 16) * 2 + (BFields(w) / 0x800) % 2
  {
    BFieldChain(w);
    BDigits((w / 0x8000_0000) % 2, (w / 128) % 2, (w / 0x200_0000) % 64, (w / 256) % 16, BFields(w));
  }

  lemma JFieldsSplit(w: Word)
    ensures w / 0x1000 == ((JFields(w) / 0x10_0000) % 2) * 0x8_0000 + ((JFields(w) / 2) % 1024) * 0x200
                          + ((JFields(w) / 0x800) % 2) * 0x100 + (JFields(w) / 0x1000) % 256
  {
    JFieldChain(w);
    JDigits((w / 0x8000_0000) % 2, (w / 0x1000) % 256, (w / 0x10_0000) % 2, (w / 0x20_0000) % 1024, JFields(w));
  }

  // Sign extension does not change the digits that are stored.

  lemma Digits12(field: int)
    requires 0 <= field < 0x1000
    ensures var ext := field - 0x1000;
      ext % 0x1000 == field && (ext / 32) % 128 == field / 32 && ext % 32 == field % 32
  {
    assert (field - 0x1000) / 32 == field / 32 - 128;
  }

  /** Subtracting a multiple of the digit's place leaves the digit. */
  lemma DigitStays(x: int, w: int, n: int, k: int)
    requires w > 0 && n > 0
    ensures ((x - k * (n * w)) / w) % n == (x / w) % n
  {
    var q := x / w;
    assert x - k * (n * w) == (q - k * n) * w + x % w;
    ModUnique(x - k * (n * w), w, q - k * n, x % w);
    ModUnique(q - k * n, n, q / n - k, q % n);
  }

  lemma Digits13(field: int)
    requires 0 <= field < 0x2000
    ensures var ext := field - 0x2000;
      && (ext / 0x1000) % 2 == (field / 0x1000) % 2 && (ext / 32) % 64 == (field / 32) % 64
      && (ext / 2) % 16 == (field / 2) % 16 && (ext / 0x800) % 2 == (field / 0x800) % 2
  {
    DigitStays(field, 0x1000, 2, 1);
    DigitStays(field, 32, 64, 4);
    DigitStays(field, 2, 16, 0x100);
    DigitStays(field, 0x800, 2, 2);
  }

  lemma Digits21(field: int)
    requires 0 <= field < 0x20_0000
    ensures var ext := field - 0x20_0000;
      && (ext / 0x10_0000) % 2 == (field / 0x10_0000) % 2 && (ext / 2) % 1024 == (field / 2) % 1024
      && (ext / 0x800) % 2 == (field / 0x800) % 2 && (ext / 0x1000) % 256 == (field / 0x1000) % 256
  {
    DigitStays(field, 0x10_0000, 2, 1);
    DigitStays(field, 2, 1024, 0x400);
    DigitStays(field, 0x800, 2, 0x200);
    DigitStays(field, 0x1000, 256, 2);
  }

  /** The decodable types whose encoding keeps nothing that decoding drops. */
  predicate Lossless(op: Op) {
    HasRow(op) && op !in {LR_W, SC_W, ECALL, EBREAK}
  }

  lemma RowUses(op: Op)
    requires Lossless(op)
    ensures Row(op).format in {R, I, S, B} ==> Row(op).useFunct3
    ensures Row(op).format == R ==> Row(op).useFunct7
  {
  }

  lemma EncodesR(op: Op, w: Word)
    requires Lossless(op) && Row(op).format == R && Matches(Row(op), w)
    ensures Encode(op, Rd(w), Rs1(w), Rs2(w), 0) == w
  {
    RowUses(op);
    hide Row, Bitwise, Opcode, Rd, Funct3, Rs1, Rs2, Funct7;
    FieldsCompose(w);
  }

  lemma EncodesI(op: Op, w: Word)
    requires Lossless(op) && Row(op).format == I && Matches(Row(op), w)
    ensures Encode(op, Rd(w), Rs1(w), Rs2(w), IImm(w)) == w
  {
    RowUses(op);
    hide Row, Bitwise, IImm, Opcode, Rd, Funct3, Rs1, Rs2, Funct7;
    FieldsCompose(w);
    Powers();
    IImmIsField(w);
    Digits12(w / 0x10_0000);
  }

  lemma SDigits(w: Word)
    ensures (SImm(w) / 32) % 128 == Funct7(w) && SImm(w) % 32 == Rd(w)
  {
    hide Bitwise, SImm, Rd, Funct7;
    Powers();
    SImmIsField(w);
    var field := Funct7(w) * 32 + Rd(w);
    assert field / 32 == Funct7(w) && field % 32 == Rd(w);
    Digits12(field);
  }

  lemma EncodesS(op: Op, w: Word)
    requires Lossless(op) && Row(op).format == S && Matches(Row(op), w)
    ensures Encode(op, Rd(w), Rs1(w), Rs2(w), SImm(w)) == w
  {
    RowUses(op);
    hide Row, Bitwise, SImm, Opcode, Rd, Funct3, Rs1, Rs2, Funct7;
    FieldsCompose(w);
    SDigits(w);
  }

  lemma EncodesB(op: Op, w: Word)
    requires Lossless(op) && Row(op).format == B && Matches(Row(op), w)
    ensures Encode(op, Rd(w), Rs1(w), Rs2(w), BImm(w)) == w
  {
    RowUses(op);
    hide Row, Bitwise, BImm, BFields, Opcode, Rd, Funct3, Rs1, Rs2, Funct7;
    FieldsCompose(w);
    Powers();
    BImmIsField(w);
    BFieldsSplit(w);
    Digits13(BFields(w));
  }

  lemma EncodesU(op: Op, w: Word)
    requires Lossless(op) && Row(op).format == U && Matches(Row(op), w)
    ensures Encode(op, Rd(w), Rs1(w), Rs2(w), UImm(w)) == w
  {
    hide Row, Bitwise, UImm;
    FieldChain(w);
    Powers();
    UImmIsField(w);
  }

  lemma EncodesJ(op: Op, w: Word)
    requires Lossless(op) && Row(op).format == J && Matches(Row(op), w)
    ensures Encode(op, Rd(w), Rs1(w), Rs2(w), JImm(w)) == w
  {
    hide Row, Bitwise, JImm, JFields;
    FieldChain(w);
    Powers();
    JImmIsField(w);
    JFieldsSplit(w);
    Digits21(JFields(w));
  }

  /** The word is recoverable from what decoding kept: type, registers and immediate. */
  lemma DecodeIsLossless(w: Word, address: Word)
    requires Lossless(Decode(w, address).op)
    ensures var d := Decode(w, address); Encode(d.op, d.rd, d.rs1, d.rs2, d.imm) == w
  {
    hide Row, Matches, Encode, Kind;
    var op := Kind(w);
    RowKind(op, w);
    match Row(op).format
    case R => EncodesR(op, w);
    case I => EncodesI(op, w);
    case S => EncodesS(op, w);
    case B => EncodesB(op, w);
    case U => EncodesU(op, w);
    case J => EncodesJ(op, w);
  }
}
