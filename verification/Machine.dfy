/**
 The Irid instruction set as a datatype, and what one instruction does to the
 registers and the memory. A program is a list of instructions, instruction k
 living at address 4 * k.
 */
module Machine {
  import opened Words

  type GprIndex = n: int | 0 <= n < 8
  type HalfIndex = n: int | 0 <= n < 4

  /** `H(n)` is the byte of r<n> stored first (the low-order one), `L(n)` the one stored second. */
  datatype Reg = R(n: GprIndex) | H(h: HalfIndex) | L(l: HalfIndex) | IP | SP | BP {
    predicate IsHalf() {
      H? || L?
    }
  }

  type Gprs = g: seq<u16> | |g| == 8 witness [0, 0, 0, 0, 0, 0, 0, 0]

  /** The register file. zf, of and sf are cleared at start and never written again. */
  datatype Regs = Regs(g: Gprs, ip: u16, sp: u16, bp: u16, cf: bool)

  datatype State = State(regs: Regs, mem: Memory)

  /** `Wild`: the step leaves what the program text defines: a 16-bit access at 0xffff,
      a write below the protected limit, an unresolved symbol, a device call. */
  datatype Outcome = Next(s: State) | Fault(code: int) | Wild

  const FAULT_SEG := 1
  const FAULT_REG := 4

  /** The mnemonics that take a register and then a register or an immediate. */
  datatype TwoOp = MOV | ADD | SUB | CMP | CMG | CML | AND | OR | MUL

  datatype Src = SReg(r: Reg) | SImm(v: int) | SSym(name: string)

  datatype Instr =
    | Nop | CpuCall | Rti | Sti | Dsi | Cfs | Ret
    | Push(reg: Reg) | PushImm8(imm8: u8) | PushImm16(imm16: u16) | Pop(reg: Reg)
    | Two(op: TwoOp, dst: Reg, src: Src)
    | CmgByte(reg: Reg, imm8: u8) | CmlByte(reg: Reg, imm8: u8)
    | Load(dst: Reg, src: Src) | Store(reg: Reg, src: Src)
    | Null(reg: Reg) | Not(reg: Reg)
    | Shr(dst: Reg, src: Src) | Shl(dst: Reg, src: Src)
    | Jmp(src: Src) | Jeq(src: Src) | Jnz(reg: Reg, src: Src)
    | Call(src: Src) | CallR(reg: Reg)

  function RLoad(r: Regs, id: Reg): u16 {
    match id
    case R(n) => r.g[n]
    case H(n) => Lo(r.g[n])
    case L(n) => Hi(r.g[n])
    case IP => r.ip
    case SP => r.sp
    case BP => r.bp
  }

  function RStore(r: Regs, id: Reg, v: u16): Regs {
    match id
    case R(n) => r.(g := r.g[n := v])
    case H(n) => r.(g := r.g[n := Word(Lo(v), Hi(r.g[n]))])
    case L(n) => r.(g := r.g[n := Word(Lo(r.g[n]), Lo(v))])
    case IP => r.(ip := v)
    case SP => r.(sp := v)
    case BP => r.(bp := v)
  }

  function Bump(s: State): State {
    s.(regs := s.regs.(ip := Wrap(s.regs.ip + 4)))
  }

  function SetReg(s: State, id: Reg, v: u16): State {
    s.(regs := RStore(s.regs, id, v))
  }

  predicate IsCompare(op: TwoOp) {
    op.CMP? || op.CMG? || op.CML?
  }

  function Compare(op: TwoOp, x: u16, y: u16): bool
    requires IsCompare(op)
  {
    match op
    case CMP => x == y
    case CMG => x > y
    case CML => x < y
  }

  function Arith(op: TwoOp, x: u16, y: u16): u16
    requires !IsCompare(op)
  {
    match op
    case MOV => y
    case ADD => Wrap(x + y)
    case SUB => Wrap(x - y)
    case AND => And16(x, y)
    case OR => Pow2Of16(); Or16Fits(x, y, 16); Or16(x, y)
    case MUL => Wrap(x * y)
  }

  function ExecTwo(op: TwoOp, dst: Reg, y: u16, s: State): State {
    if IsCompare(op) then
      s.(regs := s.regs.(cf := Compare(op, RLoad(s.regs, dst), y)))
    else
      SetReg(s, dst, Arith(op, RLoad(s.regs, dst), y))
  }

  /** Lowers sp by two and writes v there. */
  function Push16(s: State, v: u16, lim: int): Outcome {
    if s.regs.sp == 0 then Fault(FAULT_SEG)
    else
      var a := Wrap(s.regs.sp - 2);
      if a == 0xffff || a < lim then Wild
      else Next(State(s.regs.(sp := a), Write16(s.mem, a, v)))
  }

  function Push8(s: State, v: u8, lim: int): Outcome {
    if s.regs.sp == 0 then Fault(FAULT_SEG)
    else if s.regs.sp - 1 < lim then Wild
    else Next(State(s.regs.(sp := s.regs.sp - 1), s.mem[s.regs.sp - 1 := v]))
  }

  function ExecLoad(dst: Reg, a: u16, s: State): Outcome {
    if dst.IsHalf() then Next(SetReg(s, dst, s.mem[a]))
    else if a == 0xffff then Wild
    else Next(SetReg(s, dst, Read16(s.mem, a)))
  }

  function ExecStore(reg: Reg, a: u16, s: State, lim: int): Outcome {
    if a < lim then Wild
    else if reg.IsHalf() then Next(s.(mem := s.mem[a := Lo(RLoad(s.regs, reg))]))
    else if a == 0xffff then Wild
    else Next(s.(mem := Write16(s.mem, a, RLoad(s.regs, reg))))
  }

  /** The low byte of a register of any width: the count a register shift uses. */
  function ShiftCount(s: State, src: Src): Option<u8> {
    match src
    case SReg(r) => Some(Lo(RLoad(s.regs, r)))
    case SImm(v) => Some(v % 0x100)
    case SSym(_) => None
  }

  function Step4(o: Outcome): Outcome {
    match o
    case Next(t) => Next(Bump(t))
    case _ => o
  }

  function Goto(s: State, a: u16): Outcome {
    Next(s.(regs := s.regs.(ip := a)))
  }

  /** One instruction. Writes below `lim` are `Wild`; the machine itself has lim == 0. */
  function Exec(i: Instr, s: State, lim: int): Outcome {
    match i
    case Nop | Sti | Dsi => Next(Bump(s))
    case CpuCall | Rti => Wild
    case Cfs => Next(Bump(s.(regs := s.regs.(cf := !s.regs.cf))))
    case Ret =>
      if s.regs.sp == 0xffff then Wild
      else Next(s.(regs := s.regs.(ip := Read16(s.mem, s.regs.sp), sp := Wrap(s.regs.sp + 2))))
    case Push(r) =>
      if r.IsHalf() then Step4(Push8(s, Lo(RLoad(s.regs, r)), lim))
      else Step4(Push16(s, RLoad(s.regs, r), lim))
    case PushImm8(v) => Step4(Push8(s, v, lim))
    case PushImm16(v) => Step4(Push16(s, v, lim))
    case Pop(r) =>
      if r.IsHalf() then
        Next(Bump(SetReg(s.(regs := s.regs.(sp := Wrap(s.regs.sp + 1))), r, s.mem[s.regs.sp])))
      else if s.regs.sp == 0xffff then Wild
      else
        Next(Bump(SetReg(s.(regs := s.regs.(sp := Wrap(s.regs.sp + 2))), r, Read16(s.mem, s.regs.sp))))
    case Two(op, dst, SReg(r)) => Next(Bump(ExecTwo(op, dst, RLoad(s.regs, r), s)))
    case Two(op, dst, SImm(v)) => Next(Bump(ExecTwo(op, dst, Wrap(v), s)))
    case Two(_, _, SSym(_)) => Wild
    case CmgByte(r, v) => Next(Bump(s.(regs := s.regs.(cf := Lo(RLoad(s.regs, r)) > v))))
    case CmlByte(r, v) => Next(Bump(s.(regs := s.regs.(cf := Lo(RLoad(s.regs, r)) < v))))
    case Load(dst, SReg(p)) =>
      if p.IsHalf() then Fault(FAULT_REG) else Step4(ExecLoad(dst, RLoad(s.regs, p), s))
    case Load(dst, SImm(a)) => Step4(ExecLoad(dst, Wrap(a), s))
    case Load(_, SSym(_)) => Wild
    case Store(r, SReg(p)) =>
      if p.IsHalf() then Fault(FAULT_REG) else Step4(ExecStore(r, RLoad(s.regs, p), s, lim))
    case Store(r, SImm(a)) => Step4(ExecStore(r, Wrap(a), s, lim))
    case Store(_, SSym(_)) => Wild
    case Null(r) => Next(Bump(SetReg(s, r, 0)))
    case Not(r) => Next(Bump(SetReg(s, r, 0xffff - RLoad(s.regs, r))))
    case Shr(dst, src) =>
      (match ShiftCount(s, src)
       case Some(c) =>
         if c < 16 then Next(Bump(SetReg(s, dst, Wrap(RLoad(s.regs, dst) / Pow2(c))))) else Wild
       case None => Wild)
    case Shl(dst, src) =>
      (match ShiftCount(s, src)
       case Some(c) =>
         if c < 16 then Next(Bump(SetReg(s, dst, Wrap(RLoad(s.regs, dst) * Pow2(c))))) else Wild
       case None => Wild)
    case Jmp(SImm(a)) => Goto(s, Wrap(a))
    case Jeq(SImm(a)) => if s.regs.cf then Goto(s, Wrap(a)) else Next(Bump(s))
    case Jnz(r, SImm(a)) => if RLoad(s.regs, r) != 0 then Goto(s, Wrap(a)) else Next(Bump(s))
    case Call(SImm(a)) =>
      (match Push16(s, Wrap(s.regs.ip + 4), lim)
       case Next(t) => Goto(t, Wrap(a))
       case o => o)
    case CallR(r) =>
      if r.IsHalf() then Wild
      else
        (match Push16(s, Wrap(s.regs.ip + 4), lim)
         case Next(t) => Goto(t, RLoad(t.regs, r))
         case o => o)
    case Jmp(_) | Jeq(_) | Jnz(_, _) | Call(_) => Wild
  }
}
