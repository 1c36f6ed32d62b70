/**
 The code the emitter prints for values and for stores: instruction lists as
 functions of the value, the destination register and the frame layout.
 */
module Emit {
  import opened Words
  import opened Machine
  import opened Images
  import opened Values

  /** The two optimisation switches of the compiler. */
  datatype Options = Options(foldConstants: bool, cmpLiteral: bool)

  const R4: GprIndex := 4
  const R5: GprIndex := 5
  const R6: GprIndex := 6

  function MovReg(dst: Reg, src: Reg): Instr { Two(MOV, dst, SReg(src)) }
  function MovImm(dst: Reg, v: int): Instr { Two(MOV, dst, SImm(v)) }
  function MovSym(dst: Reg, name: string): Instr { Two(MOV, dst, SSym(name)) }
  function SubImm(dst: Reg, v: int): Instr { Two(SUB, dst, SImm(v)) }
  function AddReg(dst: Reg, src: Reg): Instr { Two(ADD, dst, SReg(src)) }

  function OpCode(op: BinOp): TwoOp {
    match op
    case OpAdd => ADD
    case OpSub => SUB
    case OpMul => MUL
  }

  predicate Folds(o: Options, l: Value, r: Value) {
    o.foldConstants && l.Imm? && r.Imm?
  }

  /** Exactly the values the emitter does not die on: it cannot take the address of
      anything but a local or a global. */
  predicate Emittable(v: Value) {
    match v
    case Op(_, l, r) => Emittable(l) && Emittable(r)
    case Index(b, i, _, viaPointer) =>
      Emittable(i) && (if viaPointer then Emittable(b) else b.Local? || b.Global?)
    case _ => true
  }

  function EmitAddr(lay: Layout, reg: GprIndex, v: Value): seq<Instr>
  {
    match v
    case Local(x, offset, deref, _) =>
      if deref then
        [MovReg(R(R4), BP), SubImm(R(R4), Off(lay, x)),
         Load(R(reg), SReg(R(R4))), Two(ADD, R(reg), SImm(offset))]
      else
        [MovReg(R(reg), BP), SubImm(R(reg), Off(lay, x) - offset)]
    case Global(name, _) => [MovSym(R(reg), GlobalSym(name))]
    case _ => []
  }

  function EmitValue(o: Options, lay: Layout, reg: GprIndex, v: Value): seq<Instr>
    decreases v
  {
    match v
    case Imm(n) => [MovImm(R(reg), n)]
    case Local(_, _, _, decay) => EmitAddr(lay, R4, v) + [Fetched(reg, decay)]
    case Global(_, decay) => EmitAddr(lay, R4, v) + [Fetched(reg, decay)]
    case Str(id) => [MovSym(R(reg), StringSym(id))]
    case Op(op, l, r) =>
      if Folds(o, l, r) then [MovImm(R(reg), BinArith(op, l.n, r.n))]
      else
        EmitValue(o, lay, reg, r) + [Push(R(reg))] +
        (EmitValue(o, lay, reg, l) + [Pop(R(R4)), Two(OpCode(op), R(reg), SReg(R(R4)))])
    case AddrOf(x) => [MovReg(R(reg), BP), SubImm(R(reg), Off(lay, x))]
    case Index(b, i, elemSize, viaPointer) =>
      EmitValue(o, lay, R6, i) + [Two(MUL, R(R6), SImm(elemSize))] +
      ((if viaPointer then EmitValue(o, lay, R4, b) else EmitAddr(lay, R4, b)) +
       ([AddReg(R(R4), R(R6)), Load(R(reg), SReg(R(R4)))] +
        (if elemSize == 1 then [Two(AND, R(reg), SImm(0xff))] else [])))
  }

  /** The base address of an element, into r4. */
  function EmitBase(o: Options, lay: Layout, v: Value): seq<Instr>
    requires v.Index?
  {
    if v.viaPointer then EmitValue(o, lay, R4, v.base) else EmitAddr(lay, R4, v.base)
  }

  /** Reads through r4, or takes r4 itself when an array decays into a pointer. */
  function Fetched(reg: GprIndex, decay: bool): Instr {
    if decay then MovReg(R(reg), R(R4)) else Load(R(reg), SReg(R(R4)))
  }

  /** Where a store goes: a local (or a field of it), a global, an element of a
      local array, or an element behind a local pointer. */
  datatype Place =
    | PVar(x: Var, offset: int)
    | PGlobal(name: string)
    | PArray(x: Var, offset: int, elemSize: int, index: Value)
    | PPointer(x: Var, offset: int, elemSize: int, index: Value)

  /** Stores register `res`, computing the address in register `scratch`. */
  function EmitStore(o: Options, lay: Layout, res: GprIndex, scratch: GprIndex, p: Place): seq<Instr>
  {
    match p
    case PGlobal(name) => [MovSym(R(scratch), GlobalSym(name)), Store(R(res), SReg(R(scratch)))]
    case PVar(x, offset) =>
      [MovReg(R(scratch), BP), SubImm(R(scratch), Off(lay, x) - offset), Store(R(res), SReg(R(scratch)))]
    case PArray(x, offset, elemSize, index) =>
      EmitValue(o, lay, scratch, index) +
      [Two(MUL, R(scratch), SImm(elemSize)), AddReg(R(scratch), BP),
       SubImm(R(scratch), Off(lay, x) - offset), Store(R(res), SReg(R(scratch)))]
    case PPointer(x, offset, elemSize, index) =>
      [Push(R(res))] +
      (EmitValue(o, lay, res, index) +
       [Two(MUL, R(res), SImm(elemSize)), MovReg(R(scratch), BP),
        SubImm(R(scratch), Off(lay, x) - offset), Load(R(scratch), SReg(R(scratch))),
        AddReg(R(scratch), R(res)), Pop(R(res)), Store(R(res), SReg(R(scratch)))])
  }

  /** Compares two values; leaves the result in the compare flag. */
  function EmitCmp(o: Options, lay: Layout, l: Value, r: Value): seq<Instr>
  {
    EmitValue(o, lay, R5, l) +
    (if o.cmpLiteral && r.Imm? then [Two(CMP, R(R5), SImm(r.n))]
     else EmitValue(o, lay, R6, r) + [Two(CMP, R(R5), SReg(R(R6)))])
  }

  /** The register argument i is passed in; a call has at most MAX_ARG = 4 of them. */
  function ArgReg(i: nat): GprIndex {
    i % 8
  }

  /** Argument i goes to register ri, in order. */
  function EmitArgs(o: Options, lay: Layout, args: seq<Value>): seq<Instr> {
    if args == [] then []
    else
      EmitArgs(o, lay, args[..|args| - 1]) + EmitValue(o, lay, ArgReg(|args| - 1), args[|args| - 1])
  }

  // What the emitter's register use supports -----------------------------

  /** Evaluating the value touches no register but its destination and r4. */
  predicate LeavesR6(v: Value) {
    !v.Op? && !v.Index?
  }

  /**
   The value is one the emitter compiles correctly into `reg`: an operator needs a
   destination other than r4, because its right operand comes back in r4, and an
   index needs a base that leaves the scaled index in r6 alone.
   */
  predicate Sound(o: Options, reg: GprIndex, v: Value)
    decreases v
  {
    match v
    case Op(_, l, r) => Folds(o, l, r) || (reg != R4 && Sound(o, reg, l) && Sound(o, reg, r))
    case Index(b, i, _, viaPointer) =>
      Sound(o, R6, i) && (if viaPointer then LeavesR6(b) else b.Local? || b.Global?)
    case _ => true
  }

  lemma {:induction false} SoundEmittable(o: Options, reg: GprIndex, v: Value)
    requires Sound(o, reg, v)
    ensures Emittable(v)
    decreases v
  {
    match v
    case Op(_, l, r) =>
      if !Folds(o, l, r) {
        SoundEmittable(o, reg, l);
        SoundEmittable(o, reg, r);
      }
    case Index(_, i, _, _) => SoundEmittable(o, R6, i);
    case _ =>
  }
}
