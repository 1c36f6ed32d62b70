/**
 The emitted code of a value computes the value.
 */
module ExprProof {
  import opened Words
  import opened Machine
  import opened Images
  import opened Values
  import opened Emit

  function CtxOf(lay: Layout, names: Names, s: State): Ctx {
    Ctx(lay, names, s.regs.bp, s.mem)
  }

  /** Only `reg`, r4 and r6 may differ, sp, bp and the compare flag are back, and memory
      changed at most in the `depth` words below sp. */
  ghost predicate Clobbers(s: State, t: State, reg: int, depth: nat) {
    && (forall i :: 0 <= i < 8 && i != reg && i != 4 && i != 6 ==> t.regs.g[i] == s.regs.g[i])
    && t.regs.sp == s.regs.sp && t.regs.bp == s.regs.bp && t.regs.cf == s.regs.cf
    && SameOutside(s.mem, t.mem, s.regs.sp - 2 * depth, s.regs.sp)
  }

  /** Runs `code` and names the state it ends in. */
  ghost predicate Runs(names: Names, code: seq<Instr>, s: State, t: State, lim: int) {
    RunSeq(names, code, s, lim) == Next(t)
  }

  lemma RunsThen(names: Names, a: seq<Instr>, b: seq<Instr>, s: State, t: State, u: State, lim: int)
    requires Runs(names, a, s, t, lim) && Runs(names, b, t, u, lim)
    ensures Runs(names, a + b, s, u, lim)
  {
    RunSeqAppend(names, a, b, s, t, lim);
  }

  lemma RunsOne(names: Names, i: Instr, s: State, t: State, lim: int)
    requires Exec(Resolve(names, i), s, lim) == Next(t) && t.regs.ip == s.regs.ip + 4
    ensures Runs(names, [i], s, t, lim)
  {
    RunSeqOne(names, i, s, lim);
  }

  lemma RunsIp(names: Names, code: seq<Instr>, s: State, t: State, lim: int)
    requires Runs(names, code, s, t, lim)
    ensures t.regs.ip == s.regs.ip + 4 * |code|
  {
    RunSeqIp(names, code, s, lim);
  }

  /** The machine can still advance over `n` instructions. */
  predicate Room(s: State, n: nat) {
    s.regs.ip + 4 * n < 0x1_0000
  }

  function Moved(s: State, reg: GprIndex, v: u16, n: nat): State
    requires Room(s, n)
  {
    s.(regs := s.regs.(g := s.regs.g[reg := v], ip := s.regs.ip + 4 * n))
  }

  // One instruction at a time --------------------------------------------

  /** What a source operand is worth: a full register, an immediate or a symbol. */
  ghost predicate Operand(names: Names, src: Src, s: State, y: u16) {
    match src
    case SReg(r) => RLoad(s.regs, r) == y
    case SImm(v) => Wrap(v) == y
    case SSym(n) => names.Full(n) in names.addr && names.addr[names.Full(n)] == y
  }

  lemma DoTwo(names: Names, op: TwoOp, d: GprIndex, src: Src, y: u16, s: State, lim: int)
    requires Room(s, 1) && !IsCompare(op) && Operand(names, src, s, y)
    ensures Runs(names, [Two(op, R(d), src)], s, Moved(s, d, Arith(op, s.regs.g[d], y), 1), lim)
  {
    hide Arith, RunSeq;
    RunsOne(names, Two(op, R(d), src), s, Moved(s, d, Arith(op, s.regs.g[d], y), 1), lim);
  }

  lemma DoLoad(names: Names, d: GprIndex, p: GprIndex, s: State, lim: int)
    requires Room(s, 1) && s.regs.g[p] < 0xffff
    ensures Runs(names, [Load(R(d), SReg(R(p)))], s, Moved(s, d, Read16(s.mem, s.regs.g[p]), 1), lim)
  {
    RunsOne(names, Load(R(d), SReg(R(p))), s, Moved(s, d, Read16(s.mem, s.regs.g[p]), 1), lim);
  }

  lemma Runs2(names: Names, i: Instr, j: Instr, s: State, t: State, u: State, lim: int)
    requires Runs(names, [i], s, t, lim) && Runs(names, [j], t, u, lim)
    ensures Runs(names, [i, j], s, u, lim)
  {
    RunsThen(names, [i], [j], s, t, u, lim);
    assert [i, j] == [i] + [j];
  }

  /** `mov r, bp` and `sub r, d`: a frame address. */
  lemma FrameAddr(names: Names, r: GprIndex, d: int, s: State, t: State, lim: int)
    requires Room(s, 2)
    requires t == Moved(s, r, Wrap(s.regs.bp - d), 2)
    ensures Runs(names, [MovReg(R(r), BP), SubImm(R(r), d)], s, t, lim)
  {
    hide RunSeq, Exec;
    var s1 := Moved(s, r, s.regs.bp, 1);
    DoTwo(names, MOV, r, SReg(BP), s.regs.bp, s, lim);
    WrapSub(s.regs.bp, d);
    DoTwo(names, SUB, r, SImm(d), Wrap(d), s1, lim);
    Runs2(names, MovReg(R(r), BP), SubImm(R(r), d), s, s1, t, lim);
  }

  /** `load r, r4` and `add r, offset`: a field address behind a pointer. */
  lemma FieldAddr(names: Names, r: GprIndex, offset: int, s: State, t: State, lim: int)
    requires Room(s, 2) && s.regs.g[R4] < 0xffff
    requires t == Moved(s, r, Wrap(Read16(s.mem, s.regs.g[R4]) + offset), 2)
    ensures Runs(names, [Load(R(r), SReg(R(R4))), Two(ADD, R(r), SImm(offset))], s, t, lim)
  {
    hide RunSeq, Exec;
    var p := Read16(s.mem, s.regs.g[R4]);
    DoLoad(names, r, R4, s, lim);
    WrapAdd(p, offset);
    DoTwo(names, ADD, r, SImm(offset), Wrap(offset), Moved(s, r, p, 1), lim);
    Runs2(names, Load(R(r), SReg(R(R4))), Two(ADD, R(r), SImm(offset)), s, Moved(s, r, p, 1), t, lim);
  }

  /** The address code leaves the address in `reg`. */
  lemma AddrCorrect(lay: Layout, names: Names, reg: GprIndex, v: Value, s: State, lim: int, lo: int, hi: int)
    returns (t: State)
    requires v.Local? || v.Global?
    requires Room(s, |EmitAddr(lay, reg, v)|)
    requires AddrSafe(v, CtxOf(lay, names, s), lo, hi)
    ensures Runs(names, EmitAddr(lay, reg, v), s, t, lim)
    ensures t.regs.g[reg] == AddrEval(v, CtxOf(lay, names, s))
    ensures Clobbers(s, t, reg, 0) && (reg != 6 ==> t.regs.g[6] == s.regs.g[6])
  {
    hide RunSeq, Exec;
    var c := CtxOf(lay, names, s);
    match v
    case Local(x, offset, deref, _) =>
      if deref {
        var d := Off(lay, x);
        var s1 := Moved(s, R4, Wrap(s.regs.bp - d), 2);
        FrameAddr(names, R4, d, s, s1, lim);
        t := Moved(s1, reg, Wrap(c.Rd(Wrap(s.regs.bp - d)) + offset), 2);
        FieldAddr(names, reg, offset, s1, t, lim);
        var a, b := [MovReg(R(R4), BP), SubImm(R(R4), d)], [Load(R(reg), SReg(R(R4))), Two(ADD, R(reg), SImm(offset))];
        RunsThen(names, a, b, s, s1, t, lim);
        assert EmitAddr(lay, reg, v) == a + b;
      } else {
        t := Moved(s, reg, Wrap(s.regs.bp - (Off(lay, x) - offset)), 2);
        FrameAddr(names, reg, Off(lay, x) - offset, s, t, lim);
      }
    case Global(name, _) =>
      t := Moved(s, reg, c.Sym(GlobalSym(name)), 1);
      assert names.Full(GlobalSym(name)) == GlobalSym(name);
      DoTwo(names, MOV, reg, SSym(GlobalSym(name)), c.Sym(GlobalSym(name)), s, lim);
  }

  lemma DoPush(names: Names, r: GprIndex, s: State, t: State, lim: int)
    requires Room(s, 1) && 0 <= lim <= s.regs.sp - 2
    requires t == State(s.regs.(sp := s.regs.sp - 2, ip := s.regs.ip + 4),
                        Write16(s.mem, s.regs.sp - 2, s.regs.g[r]))
    ensures Runs(names, [Push(R(r))], s, t, lim)
  {
    RunsOne(names, Push(R(r)), s, t, lim);
  }

  lemma DoPop(names: Names, r: GprIndex, s: State, t: State, lim: int)
    requires Room(s, 1) && s.regs.sp + 2 < 0x1_0000
    requires t == s.(regs := s.regs.(sp := s.regs.sp + 2, ip := s.regs.ip + 4,
                                     g := s.regs.g[r := Read16(s.mem, s.regs.sp)]))
    ensures Runs(names, [Pop(R(r))], s, t, lim)
  {
    RunsOne(names, Pop(R(r)), s, t, lim);
  }

  /** Folding and computing at run time agree modulo 2^16. */
  lemma FoldAgrees(op: BinOp, x: int, y: int)
    ensures Wrap(BinArith(op, x, y)) == Wrap(BinArith(op, Wrap(x), Wrap(y)))
  {
    match op
    case OpAdd => WrapAdd(x, y); WrapAdd(Wrap(x), y);
    case OpSub => WrapSub(x, y); WrapSub(Wrap(x), y);
    case OpMul => WrapMul(x, y);
  }

  // Values ---------------------------------------------------------------

  /** What evaluating `v` into `reg` from `s` needs: a value the register use supports,
      stack room, and no read in the stack words the code may overwrite. */
  ghost predicate CanEval(o: Options, lay: Layout, names: Names, reg: GprIndex, v: Value, s: State, lim: int) {
    && Sound(o, reg, v)
    && Room(s, |EmitValue(o, lay, reg, v)|)
    && 0 <= lim <= s.regs.sp - 2 * Depth(v)
    && Safe(v, CtxOf(lay, names, s), s.regs.sp - 2 * Depth(v), s.regs.sp)
  }

  ghost predicate Evaluated(lay: Layout, names: Names, reg: GprIndex, v: Value, s: State, t: State) {
    && t.regs.g[reg] == Eval(v, CtxOf(lay, names, s))
    && Clobbers(s, t, reg, Depth(v))
    && (LeavesR6(v) && reg != 6 ==> t.regs.g[6] == s.regs.g[6])
  }

  /** `pop r4` and the operation. */
  lemma OpTail(names: Names, op: BinOp, reg: GprIndex, s: State, t: State, lim: int)
    requires Room(s, 2) && s.regs.sp + 2 < 0x1_0000 && reg != R4
    requires var y := Read16(s.mem, s.regs.sp);
             t == s.(regs := s.regs.(sp := s.regs.sp + 2, ip := s.regs.ip + 8,
                                     g := s.regs.g[R4 := y][reg := Wrap(BinArith(op, s.regs.g[reg], y))]))
    ensures Runs(names, [Pop(R(R4)), Two(OpCode(op), R(reg), SReg(R(R4)))], s, t, lim)
  {
    hide RunSeq, Exec;
    var y := Read16(s.mem, s.regs.sp);
    var s1 := s.(regs := s.regs.(sp := s.regs.sp + 2, ip := s.regs.ip + 4, g := s.regs.g[R4 := y]));
    DoPop(names, R4, s, s1, lim);
    DoTwo(names, OpCode(op), reg, SReg(R(R4)), y, s1, lim);
    Runs2(names, Pop(R(R4)), Two(OpCode(op), R(reg), SReg(R(R4))), s, s1, t, lim);
  }

  /** Adding the scaled index to the base, reading there, and cutting a byte off. */
  lemma IndexTail(names: Names, reg: GprIndex, byte: bool, s: State, lim: int) returns (t: State)
    requires Room(s, if byte then 3 else 2)
    requires Wrap(s.regs.g[R4] as int + s.regs.g[R6] as int) < 0xffff
    ensures Runs(names, [AddReg(R(R4), R(R6)), Load(R(reg), SReg(R(R4)))] +
                        (if byte then [Two(AND, R(reg), SImm(0xff))] else []), s, t, lim)
    ensures var word := Read16(s.mem, Wrap(s.regs.g[R4] as int + s.regs.g[R6] as int));
            t.regs.g[reg] == if byte then Lo(word) else word
    ensures Clobbers(s, t, reg, 0)
  {
    hide RunSeq, Exec;
    var a := Wrap(s.regs.g[R4] as int + s.regs.g[R6] as int);
    var s1 := Moved(s, R4, a, 1);
    var s2 := Moved(s1, reg, Read16(s.mem, a), 1);
    DoTwo(names, ADD, R4, SReg(R(R6)), s.regs.g[R6], s, lim);
    DoLoad(names, reg, R4, s1, lim);
    Runs2(names, AddReg(R(R4), R(R6)), Load(R(reg), SReg(R(R4))), s, s1, s2, lim);
    var code := [AddReg(R(R4), R(R6)), Load(R(reg), SReg(R(R4)))];
    if byte {
      And16Byte(Read16(s.mem, a));
      t := Moved(s2, reg, Lo(Read16(s.mem, a)), 1);
      DoTwo(names, AND, reg, SImm(0xff), 0xff, s2, lim);
      RunsThen(names, code, [Two(AND, R(reg), SImm(0xff))], s, s2, t, lim);
    } else {
      t := s2;
      assert code + [] == code;
    }
  }

  /** A local, global, or decayed array: address into r4, then a load or a move. */
  lemma VarCorrect(o: Options, lay: Layout, names: Names, reg: GprIndex, v: Value, s: State, lim: int) returns (t: State)
    requires v.Local? || v.Global?
    requires CanEval(o, lay, names, reg, v, s, lim)
    ensures Runs(names, EmitValue(o, lay, reg, v), s, t, lim) && Evaluated(lay, names, reg, v, s, t)
  {
    hide RunSeq, Exec;
    var s1 := AddrCorrect(lay, names, R4, v, s, lim, s.regs.sp, s.regs.sp);
    RunsIp(names, EmitAddr(lay, R4, v), s, s1, lim);
    if v.decay {
      DoTwo(names, MOV, reg, SReg(R(R4)), s1.regs.g[R4], s1, lim);
      t := Moved(s1, reg, s1.regs.g[R4], 1);
    } else {
      DoLoad(names, reg, R4, s1, lim);
      t := Moved(s1, reg, Read16(s1.mem, s1.regs.g[R4]), 1);
    }
    RunsThen(names, EmitAddr(lay, R4, v), [Fetched(reg, v.decay)], s, s1, t, lim);
  }

  /** Both operands: the right one pushed, the left one in `reg`. */
  lemma {:induction false} OpOperands(o: Options, lay: Layout, names: Names, reg: GprIndex, v: Value, l: Value, r: Value,
                                      s: State, lo: int, lim: int)
    returns (t: State)
    requires v.Op? && l == v.left && r == v.right
    requires Sound(o, reg, l) && Sound(o, reg, r)
    requires Room(s, |EmitValue(o, lay, reg, l)| + |EmitValue(o, lay, reg, r)| + 1)
    requires 0 <= lim <= lo && lo <= s.regs.sp - 2 * Depth(r) && lo <= s.regs.sp - 2 - 2 * Depth(l)
    requires Safe(l, CtxOf(lay, names, s), lo, s.regs.sp) && Safe(r, CtxOf(lay, names, s), lo, s.regs.sp)
    ensures Runs(names, EmitValue(o, lay, reg, r) + [Push(R(reg))] + EmitValue(o, lay, reg, l), s, t, lim)
    ensures t.regs.g[reg] == Eval(l, CtxOf(lay, names, s))
    ensures t.regs.sp == s.regs.sp - 2 && Read16(t.mem, s.regs.sp - 2) == Eval(r, CtxOf(lay, names, s))
    ensures forall i :: 0 <= i < 8 && i != reg && i != 4 && i != 6 ==> t.regs.g[i] == s.regs.g[i]
    ensures t.regs.bp == s.regs.bp && t.regs.cf == s.regs.cf && SameOutside(s.mem, t.mem, lo, s.regs.sp)
    decreases v, 0
  {
    hide RunSeq, Exec, EmitValue, Eval, Safe, Sound, Depth;
    var c, sp := CtxOf(lay, names, s), s.regs.sp;
    var A, B := EmitValue(o, lay, reg, r), EmitValue(o, lay, reg, l);
    SafeShrink(r, c, lo, sp, sp - 2 * Depth(r), sp);
    var s1 := ExprCorrect(o, lay, names, reg, r, s, lim);
    RunsIp(names, A, s, s1, lim);
    var y := s1.regs.g[reg];
    var s2 := State(s1.regs.(sp := sp - 2, ip := s1.regs.ip + 4), Write16(s1.mem, sp - 2, y));
    DoPush(names, reg, s1, s2, lim);
    Write16Read16(s1.mem, sp - 2, y);
    assert SameOutside(s.mem, s2.mem, lo, sp);
    EvalFrame(l, c, s2.mem, lo, sp);
    SafeShrink(l, CtxOf(lay, names, s2), lo, sp, sp - 2 - 2 * Depth(l), sp - 2);
    t := ExprCorrect(o, lay, names, reg, l, s2, lim);
    assert t.mem[sp - 2] == s2.mem[sp - 2] && t.mem[sp - 1] == s2.mem[sp - 1];
    RunsThen(names, A, [Push(R(reg))], s, s1, s2, lim);
    RunsThen(names, A + [Push(R(reg))], B, s, s2, t, lim);
  }

  /** An operator that is not folded: right operand, push, left operand, pop into r4, operate. */
  lemma {:induction false} OpCorrect(o: Options, lay: Layout, names: Names, reg: GprIndex, v: Value, s: State, lim: int)
    returns (t: State)
    requires v.Op? && !Folds(o, v.left, v.right)
    requires CanEval(o, lay, names, reg, v, s, lim)
    ensures Runs(names, EmitValue(o, lay, reg, v), s, t, lim) && Evaluated(lay, names, reg, v, s, t)
    decreases v, 1
  {
    hide RunSeq, Exec;
    var sp := s.regs.sp;
    var A, B := EmitValue(o, lay, reg, v.right), EmitValue(o, lay, reg, v.left);
    var tail := [Pop(R(R4)), Two(OpCode(v.op), R(reg), SReg(R(R4)))];
    var s1 := OpOperands(o, lay, names, reg, v, v.left, v.right, s, sp - 2 * Depth(v), lim);
    RunsIp(names, A + [Push(R(reg))] + B, s, s1, lim);
    var y := Read16(s1.mem, sp - 2);
    t := s1.(regs := s1.regs.(sp := sp, ip := s1.regs.ip + 8,
                              g := s1.regs.g[R4 := y][reg := Wrap(BinArith(v.op, s1.regs.g[reg], y))]));
    OpTail(names, v.op, reg, s1, t, lim);
    RunsThen(names, A + [Push(R(reg))] + B, tail, s, s1, t, lim);
    assert EmitValue(o, lay, reg, v) == A + [Push(R(reg))] + B + tail;
  }

  /** The scaled index in r6. */
  lemma {:induction false} IndexScaled(o: Options, lay: Layout, names: Names, v: Value, i: Value, size: int, s: State,
                                       lo: int, lim: int)
    returns (t: State)
    requires v.Index? && i == v.index
    requires Sound(o, R6, i) && Room(s, |EmitValue(o, lay, R6, i)| + 1)
    requires 0 <= lim <= lo <= s.regs.sp - 2 * Depth(i)
    requires Safe(i, CtxOf(lay, names, s), lo, s.regs.sp)
    ensures Runs(names, EmitValue(o, lay, R6, i) + [Two(MUL, R(R6), SImm(size))], s, t, lim)
    ensures t.regs.g[R6] == Wrap(Eval(i, CtxOf(lay, names, s)) * Wrap(size))
    ensures forall j :: 0 <= j < 8 && j != 4 && j != 6 ==> t.regs.g[j] == s.regs.g[j]
    ensures t.regs.sp == s.regs.sp && t.regs.bp == s.regs.bp && t.regs.cf == s.regs.cf
    ensures SameOutside(s.mem, t.mem, lo, s.regs.sp)
    decreases v, 0
  {
    hide RunSeq, Exec, EmitValue, Eval, Safe, Sound, Depth;
    SafeShrink(i, CtxOf(lay, names, s), lo, s.regs.sp, s.regs.sp - 2 * Depth(i), s.regs.sp);
    var s1 := ExprCorrect(o, lay, names, R6, i, s, lim);
    RunsIp(names, EmitValue(o, lay, R6, i), s, s1, lim);
    t := Moved(s1, R6, Wrap(s1.regs.g[R6] * Wrap(size)), 1);
    DoTwo(names, MUL, R6, SImm(size), Wrap(size), s1, lim);
    RunsThen(names, EmitValue(o, lay, R6, i), [Two(MUL, R(R6), SImm(size))], s, s1, t, lim);
  }

  /** The base address in r4, with r6 left alone. */
  lemma {:induction false} IndexBase(o: Options, lay: Layout, names: Names, v: Value, c: Ctx, s: State, lo: int, lim: int)
    returns (t: State)
    requires v.Index? && Sound(o, R4, v) && Room(s, |EmitBase(o, lay, v)|)
    requires 0 <= lim <= lo <= s.regs.sp
    requires Safe(v, c, lo, s.regs.sp) && SameOutside(c.mem, s.mem, lo, s.regs.sp)
    requires c == Ctx(lay, names, s.regs.bp, c.mem)
    ensures Runs(names, EmitBase(o, lay, v), s, t, lim)
    ensures t.regs.g[R4] == (if v.viaPointer then Eval(v.base, c) else AddrEval(v.base, c))
    ensures t.regs.g[6] == s.regs.g[6] && Clobbers(s, t, 4, 0)
    decreases v, 0
  {
    hide RunSeq, Exec;
    if v.viaPointer {
      EvalFrame(v.base, c, s.mem, lo, s.regs.sp);
      SafeShrink(v.base, CtxOf(lay, names, s), lo, s.regs.sp, s.regs.sp, s.regs.sp);
      t := ExprCorrect(o, lay, names, R4, v.base, s, lim);
    } else {
      AddrFrame(v.base, c, s.mem, lo, s.regs.sp);
      t := AddrCorrect(lay, names, R4, v.base, s, lim, lo, s.regs.sp);
    }
  }

  /** An element: scaled index in r6, base in r4, their sum read through r4. */
  lemma {:induction false} IndexCorrect(o: Options, lay: Layout, names: Names, reg: GprIndex, v: Value, s: State, lim: int)
    returns (t: State)
    requires v.Index?
    requires CanEval(o, lay, names, reg, v, s, lim)
    ensures Runs(names, EmitValue(o, lay, reg, v), s, t, lim) && Evaluated(lay, names, reg, v, s, t)
    decreases v, 1
  {
    hide RunSeq, Exec;
    var c, sp := CtxOf(lay, names, s), s.regs.sp;
    var lo := sp - 2 * Depth(v);
    var A := EmitValue(o, lay, R6, v.index) + [Two(MUL, R(R6), SImm(v.elemSize))];
    var s1 := IndexScaled(o, lay, names, v, v.index, v.elemSize, s, lo, lim);
    RunsIp(names, A, s, s1, lim);
    var s2 := IndexBase(o, lay, names, v, c, s1, lo, lim);
    RunsIp(names, EmitBase(o, lay, v), s1, s2, lim);
    assert Wrap(s2.regs.g[R4] as int + s2.regs.g[R6] as int) == IndexAddr(v, c);
    RdFrame(IndexAddr(v, c), c, s2.mem, lo, sp);
    t := IndexTail(names, reg, v.elemSize == 1, s2, lim);
    var tail := [AddReg(R(R4), R(R6)), Load(R(reg), SReg(R(R4)))] +
                (if v.elemSize == 1 then [Two(AND, R(reg), SImm(0xff))] else []);
    RunsThen(names, EmitBase(o, lay, v), tail, s1, s2, t, lim);
    RunsThen(names, A, EmitBase(o, lay, v) + tail, s, s1, t, lim);
  }

  /**
   The code of a value leaves its 16-bit value in the destination, changes no other
   register but r4 and r6, restores sp, and writes memory only in the words below sp
   it needs, whatever the optimisation switches.
   */
  lemma {:induction false} ExprCorrect(o: Options, lay: Layout, names: Names, reg: GprIndex, v: Value, s: State, lim: int)
    returns (t: State)
    requires CanEval(o, lay, names, reg, v, s, lim)
    ensures Runs(names, EmitValue(o, lay, reg, v), s, t, lim) && Evaluated(lay, names, reg, v, s, t)
    decreases v, 2
  {
    hide RunSeq, Exec;
    match v
    case Imm(n) =>
      DoTwo(names, MOV, reg, SImm(n), Wrap(n), s, lim);
      t := Moved(s, reg, Wrap(n), 1);
    case Str(id) =>
      var a := CtxOf(lay, names, s).Sym(StringSym(id));
      assert names.Full(StringSym(id)) == StringSym(id);
      DoTwo(names, MOV, reg, SSym(StringSym(id)), a, s, lim);
      t := Moved(s, reg, a, 1);
    case AddrOf(x) =>
      t := Moved(s, reg, Wrap(s.regs.bp - Off(lay, x)), 2);
      FrameAddr(names, reg, Off(lay, x), s, t, lim);
    case Op(op, l, r) =>
      if Folds(o, l, r) {
        var n := BinArith(op, l.n, r.n);
        FoldAgrees(op, l.n, r.n);
        DoTwo(names, MOV, reg, SImm(n), Wrap(n), s, lim);
        t := Moved(s, reg, Wrap(n), 1);
        assert Eval(l, CtxOf(lay, names, s)) == Wrap(l.n) && Eval(r, CtxOf(lay, names, s)) == Wrap(r.n);
      } else {
        t := OpCorrect(o, lay, names, reg, v, s, lim);
      }
    case Index(_, _, _, _) => t := IndexCorrect(o, lay, names, reg, v, s, lim);
    case _ => t := VarCorrect(o, lay, names, reg, v, s, lim);
  }
}
