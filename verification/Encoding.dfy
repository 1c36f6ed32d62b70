/**
 Instructions as four bytes: what the assembler writes and what the CPU reads back.
 */
module Encoding {
  import opened Words
  import opened Machine
  import opened Images

  function RegByte(r: Reg): u8 {
    match r
    case R(n) => n
    case H(n) => 0x10 + n
    case L(n) => 0x20 + n
    case IP => 0x70
    case SP => 0x71
    case BP => 0x72
  }

  /** The registers the assembler can name; other ids alias fields it never writes. */
  function ByteReg(b: u8): Option<Reg> {
    if b < 8 then Some(R(b))
    else if 0x10 <= b < 0x14 then Some(H(b - 0x10))
    else if 0x20 <= b < 0x24 then Some(L(b - 0x20))
    else if b == 0x70 then Some(IP)
    else if b == 0x71 then Some(SP)
    else if b == 0x72 then Some(BP)
    else None
  }

  /** The opcode of the register form; +1 takes an 8-bit, +2 a 16-bit immediate. */
  function TwoCode(op: TwoOp): u8 {
    match op
    case MOV => 0x14
    case CMP => 0x1a
    case CMG => 0x1d
    case CML => 0x20
    case ADD => 0x36
    case SUB => 0x39
    case AND => 0x3c
    case OR => 0x3f
    case MUL => 0x47
  }

  // Decoding -------------------------------------------------------------------

  function WithReg(b: u8, f: Reg -> Instr): Option<Instr> {
    match ByteReg(b)
    case Some(r) => Some(f(r))
    case None => None
  }

  function WithTwo(op: TwoOp, b1: u8, src: Option<Src>): Option<Instr> {
    match (ByteReg(b1), src)
    case (Some(d), Some(y)) => Some(Two(op, d, y))
    case _ => None
  }

  function RegSrc(b: u8): Option<Src> {
    match ByteReg(b)
    case Some(r) => Some(SReg(r))
    case None => None
  }

  /** An opcode of the register/8-bit/16-bit families, in its form 0, 1 or 2. */
  function DecodeTwo(op: TwoOp, form: int, b1: u8, b2: u8, b3: u8): Option<Instr> {
    if form == 0 then WithTwo(op, b1, RegSrc(b2))
    else if form == 1 then
      (match op
       case CMG => WithReg(b1, r => CmgByte(r, b2))
       case CML => WithReg(b1, r => CmlByte(r, b2))
       case _ => WithTwo(op, b1, Some(SImm(b2))))
    else WithTwo(op, b1, Some(SImm(Word(b2, b3))))
  }

  function DecodePtr(load: bool, b1: u8, src: Option<Src>): Option<Instr> {
    match (ByteReg(b1), src)
    case (Some(r), Some(p)) => Some(if load then Load(r, p) else Store(r, p))
    case _ => None
  }

  function DecodeShift(left: bool, b1: u8, src: Option<Src>): Option<Instr> {
    match (ByteReg(b1), src)
    case (Some(r), Some(c)) => Some(if left then Shl(r, c) else Shr(r, c))
    case _ => None
  }

  /** The instruction the CPU runs on these bytes; an unknown opcode is skipped. */
  function Decode(b0: u8, b1: u8, b2: u8, b3: u8): Option<Instr> {
    if 0x14 <= b0 <= 0x16 then DecodeTwo(MOV, b0 - 0x14, b1, b2, b3)
    else if 0x1a <= b0 <= 0x1c then DecodeTwo(CMP, b0 - 0x1a, b1, b2, b3)
    else if 0x1d <= b0 <= 0x1f then DecodeTwo(CMG, b0 - 0x1d, b1, b2, b3)
    else if 0x20 <= b0 <= 0x22 then DecodeTwo(CML, b0 - 0x20, b1, b2, b3)
    else if 0x36 <= b0 <= 0x38 then DecodeTwo(ADD, b0 - 0x36, b1, b2, b3)
    else if 0x39 <= b0 <= 0x3b then DecodeTwo(SUB, b0 - 0x39, b1, b2, b3)
    else if 0x3c <= b0 <= 0x3e then DecodeTwo(AND, b0 - 0x3c, b1, b2, b3)
    else if 0x3f <= b0 <= 0x41 then DecodeTwo(OR, b0 - 0x3f, b1, b2, b3)
    else if 0x47 <= b0 <= 0x49 then DecodeTwo(MUL, b0 - 0x47, b1, b2, b3)
    else if b0 == 0x01 then Some(CpuCall)
    else if b0 == 0x02 then Some(Rti)
    else if b0 == 0x03 then Some(Sti)
    else if b0 == 0x04 then Some(Dsi)
    else if b0 == 0x10 then WithReg(b1, r => Push(r))
    else if b0 == 0x11 then Some(PushImm8(b1))
    else if b0 == 0x12 then Some(PushImm16(Word(b1, b2)))
    else if b0 == 0x13 then WithReg(b1, r => Pop(r))
    else if b0 == 0x17 then DecodePtr(true, b1, RegSrc(b2))
    else if b0 == 0x18 then DecodePtr(false, b1, RegSrc(b2))
    else if b0 == 0x19 then WithReg(b1, r => Null(r))
    else if b0 == 0x23 then DecodePtr(true, b1, Some(SImm(Word(b2, b3))))
    else if b0 == 0x24 then DecodePtr(false, b1, Some(SImm(Word(b2, b3))))
    else if b0 == 0x25 then Some(Cfs)
    else if b0 == 0x30 then Some(Jmp(SImm(Word(b1, b2))))
    else if b0 == 0x31 then WithReg(b1, r => Jnz(r, SImm(Word(b2, b3))))
    else if b0 == 0x32 then Some(Jeq(SImm(Word(b1, b2))))
    else if b0 == 0x33 then Some(Call(SImm(Word(b1, b2))))
    else if b0 == 0x34 then WithReg(b1, r => CallR(r))
    else if b0 == 0x35 then Some(Ret)
    else if b0 == 0x42 then WithReg(b1, r => Not(r))
    else if b0 == 0x43 then DecodeShift(false, b1, RegSrc(b2))
    else if b0 == 0x44 then DecodeShift(false, b1, Some(SImm(b2)))
    else if b0 == 0x45 then DecodeShift(true, b1, RegSrc(b2))
    else if b0 == 0x46 then DecodeShift(true, b1, Some(SImm(b2)))
    else Some(Nop)
  }

  // Encoding -------------------------------------------------------------------

  /** Four bytes, and where in them a symbol's address is still to be written:
      `field` is 1 or 2, or 0 when nothing is. */
  datatype Enc = Enc(b0: u8, b1: u8, b2: u8, b3: u8, field: int, symbol: string) {
    function Bytes(): (r: seq<u8>)
      ensures |r| == 4
    {
      [b0, b1, b2, b3]
    }

    /** The bytes with the symbol's address written in. */
    function Patched(a: u16): (r: seq<u8>)
      ensures |r| == 4
    {
      if field == 1 then [b0, Lo(a), Hi(a), b3]
      else if field == 2 then [b0, b1, Lo(a), Hi(a)]
      else Bytes()
    }
  }

  type Values = map<string, int>

  function LoByte(v: int): u8 { v % 0x100 }

  function HiByte(v: int): u8 { (v / 0x100) % 0x100 }

  /** An address operand in its 16-bit form: a known value, a literal, or a link. */
  function Address(values: Values, src: Src): Option<(u8, u8, string)> {
    match src
    case SReg(_) => None
    case SImm(v) => if v > 0xffff then None else Some((LoByte(v), HiByte(v), ""))
    case SSym(n) =>
      if n in values then Some((LoByte(values[n]), HiByte(values[n]), "")) else Some((0, 0, n))
  }

  function EncJump(b0: u8, values: Values, src: Src): Option<Enc> {
    match Address(values, src)
    case Some((lo, hi, name)) => Some(Enc(b0, lo, hi, 0, if name == "" then 0 else 1, name))
    case None => None
  }

  function EncAt2(b0: u8, b1: u8, values: Values, src: Src): Option<Enc> {
    match Address(values, src)
    case Some((lo, hi, name)) => Some(Enc(b0, b1, lo, hi, if name == "" then 0 else 2, name))
    case None => None
  }

  function Plain(b0: u8, b1: u8, b2: u8, b3: u8): Option<Enc> {
    Some(Enc(b0, b1, b2, b3, 0, ""))
  }

  /** What the assembler writes for an instruction line; `None` is an error exit. */
  function Encode(i: Instr, values: Values): Option<Enc> {
    match i
    case CpuCall => Plain(0x01, 0, 0, 0)
    case Rti => Plain(0x02, 0, 0, 0)
    case Sti => Plain(0x03, 0, 0, 0)
    case Dsi => Plain(0x04, 0, 0, 0)
    case Cfs => Plain(0x25, 0, 0, 0)
    case Ret => Plain(0x35, 0, 0, 0)
    case Push(r) => Plain(0x10, RegByte(r), 0, 0)
    case Pop(r) => Plain(0x13, RegByte(r), 0, 0)
    case Two(op, d, SReg(r)) => Plain(TwoCode(op), RegByte(d), RegByte(r), 0)
    case Two(op, d, SSym(_)) => EncAt2(TwoCode(op) + 2, RegByte(d), values, i.src)
    case Two(op, d, SImm(v)) =>
      if v > 0xffff then None
      else if v < 0x100 then Plain(TwoCode(op) + 1, RegByte(d), LoByte(v), 0)
      else Plain(TwoCode(op) + 2, RegByte(d), LoByte(v), HiByte(v))
    case Load(d, SReg(p)) => Plain(0x17, RegByte(d), RegByte(p), 0)
    case Load(d, _) => EncAt2(0x23, RegByte(d), values, i.src)
    case Store(r, SReg(p)) => Plain(0x18, RegByte(r), RegByte(p), 0)
    case Store(r, _) => EncAt2(0x24, RegByte(r), values, i.src)
    case Shr(d, SReg(c)) => Plain(0x43, RegByte(d), RegByte(c), 0)
    case Shr(d, SImm(v)) => if v > 0xff then None else Plain(0x44, RegByte(d), LoByte(v), 0)
    case Shl(d, SReg(c)) => Plain(0x45, RegByte(d), RegByte(c), 0)
    case Shl(d, SImm(v)) => if v > 0xff then None else Plain(0x46, RegByte(d), LoByte(v), 0)
    case Jmp(src) => EncJump(0x30, values, src)
    case Jnz(r, src) => EncAt2(0x31, RegByte(r), values, src)
    case Jeq(src) => EncJump(0x32, values, src)
    case Call(src) => EncJump(0x33, values, src)
    case _ => None
  }

  // Agreement ------------------------------------------------------------------

  /** The immediate is one whose short or long form means the same 16-bit value, and the
      instruction is not a byte comparison of a full register. */
  predicate Exact(i: Instr) {
    match i
    case Two(op, _, SImm(v)) => 0 <= v <= 0xffff && (op.CMG? || op.CML? ==> v >= 0x100)
    case Shr(_, SImm(v)) => 0 <= v
    case Shl(_, SImm(v)) => 0 <= v
    case _ => HasSrc(i) && i.src.SImm? ==> 0 <= i.src.v
  }

  /** The symbol of the instruction, if it has one, has address `a`. */
  predicate SymbolAt(names: Names, i: Instr, a: u16) {
    Symbolic(i) ==>
      i.src.name != "" && names.Full(i.src.name) in names.addr && names.addr[names.Full(i.src.name)] == a
  }

  /** The CPU reads the patched bytes back as the instruction with its symbol resolved. */
  predicate ReadsBack(names: Names, i: Instr, a: u16)
    requires Encode(i, map[]).Some?
  {
    var b := Encode(i, map[]).value.Patched(a);
    Decode(b[0], b[1], b[2], b[3]) == Some(Resolve(names, i))
  }

  lemma RegRoundTrip(r: Reg)
    ensures ByteReg(RegByte(r)) == Some(r)
  {
  }

  lemma WordBytes(v: int)
    requires 0 <= v <= 0xffff
    ensures Word(LoByte(v), HiByte(v)) == v
  {
  }

  lemma DecodeTwoCode(op: TwoOp, form: int, b1: u8, b2: u8, b3: u8)
    requires 0 <= form <= 2
    ensures Decode(TwoCode(op) + form, b1, b2, b3) == DecodeTwo(op, form, b1, b2, b3)
  {
    hide DecodeTwo;
  }

  /** The instruction of a register/immediate family is read back as written, in
      whichever of the three forms the assembler picked. */
  lemma TwoRoundTrip(names: Names, i: Instr, a: u16)
    requires i.Two? && Exact(i) && Encode(i, map[]).Some?
    requires SymbolAt(names, i, a)
    ensures ReadsBack(names, i, a)
  {
    hide Decode, ByteReg, RegByte, LoByte, HiByte, TwoCode;
    var b := Encode(i, map[]).value.Patched(a);
    RegRoundTrip(i.dst);
    match i.src
    case SReg(r) =>
      RegRoundTrip(r);
      DecodeTwoCode(i.op, 0, b[1], b[2], b[3]);
    case SImm(v) =>
      WordBytes(v);
      if v < 0x100 {
        DecodeTwoCode(i.op, 1, b[1], b[2], b[3]);
      } else {
        DecodeTwoCode(i.op, 2, b[1], b[2], b[3]);
      }
    case SSym(_) => DecodeTwoCode(i.op, 2, b[1], b[2], b[3]);
  }

  /** Whatever the assembler writes for an instruction, with its symbol patched to the
      symbol's address, the CPU reads back as that instruction. */
  lemma EncodeDecode(names: Names, i: Instr, a: u16)
    requires Exact(i) && Encode(i, map[]).Some?
    requires SymbolAt(names, i, a)
    ensures ReadsBack(names, i, a)
  {
    if i.Two? {
      TwoRoundTrip(names, i, a);
    } else {
      OtherRoundTrip(names, i, a);
    }
  }

  lemma OtherRoundTrip(names: Names, i: Instr, a: u16)
    requires !i.Two? && Exact(i) && Encode(i, map[]).Some?
    requires SymbolAt(names, i, a)
    ensures ReadsBack(names, i, a)
  {
    hide Decode, Encode, Resolve, Exact;
    if i.Load? || i.Store? {
      PtrRoundTrip(names, i, a);
    } else if i.Shr? || i.Shl? {
      ShiftRoundTrip(names, i, a);
    } else if HasSrc(i) {
      JumpRoundTrip(names, i, a);
    } else {
      PlainRoundTrip(names, i, a);
    }
  }

  lemma PtrRoundTrip(names: Names, i: Instr, a: u16)
    requires (i.Load? || i.Store?) && Exact(i) && Encode(i, map[]).Some?
    requires SymbolAt(names, i, a)
    ensures ReadsBack(names, i, a)
  {
    hide DecodeTwo, ByteReg, RegByte, LoByte, HiByte;
    var r := if i.Load? then i.dst else i.reg;
    RegRoundTrip(r);
    match i.src
    case SReg(p) => RegRoundTrip(p);
    case SImm(v) => WordBytes(v);
    case SSym(_) =>
  }

  lemma ShiftRoundTrip(names: Names, i: Instr, a: u16)
    requires (i.Shr? || i.Shl?) && Exact(i) && Encode(i, map[]).Some?
    requires SymbolAt(names, i, a)
    ensures ReadsBack(names, i, a)
  {
    hide DecodeTwo, ByteReg, RegByte;
    RegRoundTrip(i.dst);
    if i.src.SReg? {
      RegRoundTrip(i.src.r);
    }
  }

  lemma JumpRoundTrip(names: Names, i: Instr, a: u16)
    requires (i.Jmp? || i.Jeq? || i.Jnz? || i.Call?) && Exact(i) && Encode(i, map[]).Some?
    requires SymbolAt(names, i, a)
    ensures ReadsBack(names, i, a)
  {
    hide DecodeTwo, ByteReg, RegByte, LoByte, HiByte;
    if i.Jnz? {
      RegRoundTrip(i.reg);
    }
    if i.src.SImm? {
      WordBytes(i.src.v);
    }
  }

  lemma PlainRoundTrip(names: Names, i: Instr, a: u16)
    requires !HasSrc(i) && Exact(i) && Encode(i, map[]).Some?
    ensures ReadsBack(names, i, a)
  {
    hide DecodeTwo, ByteReg, RegByte;
    if i.Push? || i.Pop? {
      RegRoundTrip(i.reg);
    }
  }

  lemma ByteForm(v: int)
    requires v < 0x100
    ensures Wrap(LoByte(v)) == Wrap(v) <==> 0 <= v || Wrap(v) < 0x100
  {
    assert v % 0x100 == Wrap(v) % 0x100;
  }

  /**
   An immediate survives its encoding exactly when it is not negative, or when the
   16-bit value it stands for happens to fit the single byte it is written as.
   */
  lemma ImmediateExact(op: TwoOp, d: Reg, v: int)
    requires v <= 0xffff && !op.CMG? && !op.CML?
    ensures var b := Encode(Two(op, d, SImm(v)), map[]).value.Bytes();
            var i := Decode(b[0], b[1], b[2], b[3]);
            && i.Some? && i.value.Two? && i.value.op == op && i.value.dst == d && i.value.src.SImm?
            && (Wrap(i.value.src.v) == Wrap(v) <==> 0 <= v || Wrap(v) < 0x100)
  {
    hide Decode, ByteReg, RegByte, LoByte, HiByte, Wrap, TwoCode;
    var b := Encode(Two(op, d, SImm(v)), map[]).value.Bytes();
    RegRoundTrip(d);
    if v < 0x100 {
      ByteForm(v);
      DecodeTwoCode(op, 1, b[1], b[2], b[3]);
    } else {
      DecodeTwoCode(op, 2, b[1], b[2], b[3]);
      WordBytes(v);
    }
  }
}
