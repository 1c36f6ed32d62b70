/**
 Where the scratch register r4 gets in the way, and what the two optimisation switches
 leave unchanged in the registers.
 */
module Scratch {
  import opened Words
  import opened Machine
  import opened Images
  import opened Values
  import opened Emit
  import opened ExprProof
  import opened StoreProof

  /** A value whose operators, on the way to r4, all have r4 as their destination. */
  predicate SoundInR4(o: Options, v: Value) {
    if v.Op? && !Folds(o, v.left, v.right) then SoundInR4(o, v.left) && SoundInR4(o, v.right)
    else Sound(o, R4, v)
  }

  /** What the emitted code leaves in r4: each operator works on two copies of what its
      right operand left there. */
  function InR4(o: Options, v: Value, c: Ctx): u16 {
    if v.Op? && !Folds(o, v.left, v.right) then
      var y := InR4(o, v.right, c);
      Wrap(BinArith(v.op, y, y))
    else Eval(v, c)
  }

  /** As `CanEval`; only the destination is r4. */
  ghost predicate CanEvalInR4(o: Options, lay: Layout, names: Names, v: Value, s: State, lim: int) {
    && SoundInR4(o, v)
    && Room(s, |EmitValue(o, lay, R4, v)|)
    && 0 <= lim <= s.regs.sp - 2 * Depth(v)
    && Safe(v, CtxOf(lay, names, s), s.regs.sp - 2 * Depth(v), s.regs.sp)
  }

  lemma PopOverResult(names: Names, op: BinOp, s: State, t: State, lim: int)
    requires Room(s, 2) && s.regs.sp + 2 < 0x1_0000
    requires var y := Read16(s.mem, s.regs.sp);
             t == s.(regs := s.regs.(sp := s.regs.sp + 2, ip := s.regs.ip + 8,
                                     g := s.regs.g[R4 := Wrap(BinArith(op, y, y))]))
    ensures Runs(names, [Pop(R(R4)), Two(OpCode(op), R(R4), SReg(R(R4)))], s, t, lim)
  {
    hide RunSeq, Exec;
    var y := Read16(s.mem, s.regs.sp);
    var s1 := s.(regs := s.regs.(sp := s.regs.sp + 2, ip := s.regs.ip + 4, g := s.regs.g[R4 := y]));
    DoPop(names, R4, s, s1, lim);
    DoTwo(names, OpCode(op), R4, SReg(R(R4)), y, s1, lim);
    assert s1.regs.g[R4 := Wrap(BinArith(op, y, y))] == s.regs.g[R4 := Wrap(BinArith(op, y, y))];
    Runs2(names, Pop(R(R4)), Two(OpCode(op), R(R4), SReg(R(R4))), s, s1, t, lim);
  }

  /** The right operand's result pushed, the left operand's in r4. */
  lemma {:induction false} OperandsIntoR4(o: Options, lay: Layout, names: Names, v: Value, l: Value, r: Value,
                                          s: State, lo: int, lim: int)
    returns (t: State)
    requires v.Op? && l == v.left && r == v.right
    requires SoundInR4(o, l) && SoundInR4(o, r)
    requires Room(s, |EmitValue(o, lay, R4, l)| + |EmitValue(o, lay, R4, r)| + 1)
    requires 0 <= lim <= lo && lo <= s.regs.sp - 2 * Depth(r) && lo <= s.regs.sp - 2 - 2 * Depth(l)
    requires Safe(l, CtxOf(lay, names, s), lo, s.regs.sp) && Safe(r, CtxOf(lay, names, s), lo, s.regs.sp)
    ensures Runs(names, EmitValue(o, lay, R4, r) + [Push(R(R4))] + EmitValue(o, lay, R4, l), s, t, lim)
    ensures t.regs.sp == s.regs.sp - 2 && Read16(t.mem, s.regs.sp - 2) == InR4(o, r, CtxOf(lay, names, s))
    ensures forall i :: 0 <= i < 8 && i != 4 && i != 6 ==> t.regs.g[i] == s.regs.g[i]
    ensures t.regs.bp == s.regs.bp && t.regs.cf == s.regs.cf && SameOutside(s.mem, t.mem, lo, s.regs.sp)
    decreases v, 0
  {
    hide RunSeq, Exec, EmitValue, Eval, Safe, SoundInR4, Depth, InR4;
    var c, sp := CtxOf(lay, names, s), s.regs.sp;
    var A, B := EmitValue(o, lay, R4, r), EmitValue(o, lay, R4, l);
    SafeShrink(r, c, lo, sp, sp - 2 * Depth(r), sp);
    var s1 := OperatorIntoR4(o, lay, names, r, s, lim);
    RunsIp(names, A, s, s1, lim);
    var y := s1.regs.g[R4];
    var s2 := State(s1.regs.(sp := sp - 2, ip := s1.regs.ip + 4), Write16(s1.mem, sp - 2, y));
    DoPush(names, R4, s1, s2, lim);
    Write16Read16(s1.mem, sp - 2, y);
    assert SameOutside(s.mem, s2.mem, lo, sp);
    EvalFrame(l, c, s2.mem, lo, sp);
    SafeShrink(l, CtxOf(lay, names, s2), lo, sp, sp - 2 - 2 * Depth(l), sp - 2);
    t := OperatorIntoR4(o, lay, names, l, s2, lim);
    assert t.mem[sp - 2] == s2.mem[sp - 2] && t.mem[sp - 1] == s2.mem[sp - 1];
    RunsThen(names, A, [Push(R(R4))], s, s1, s2, lim);
    RunsThen(names, A + [Push(R(R4))], B, s, s2, t, lim);
  }

  lemma OperatorCode(o: Options, lay: Layout, v: Value)
    requires v.Op? && !Folds(o, v.left, v.right)
    ensures EmitValue(o, lay, R4, v) == EmitValue(o, lay, R4, v.right) + [Push(R(R4))] + EmitValue(o, lay, R4, v.left) +
                                        [Pop(R(R4)), Two(OpCode(v.op), R(R4), SReg(R(R4)))]
  {
    var A, B := EmitValue(o, lay, R4, v.right) + [Push(R(R4))], EmitValue(o, lay, R4, v.left);
    var tail := [Pop(R(R4)), Two(OpCode(v.op), R(R4), SReg(R(R4)))];
    assert A + (B + tail) == A + B + tail;
  }

  /**
   Every value evaluated into r4 leaves `InR4` there, operators nested to any depth: an
   operator loses its left operand, because popping the right one overwrites it. All other
   guarantees of an evaluation hold.
   */
  lemma {:induction false} OperatorIntoR4(o: Options, lay: Layout, names: Names, v: Value, s: State, lim: int)
    returns (t: State)
    requires CanEvalInR4(o, lay, names, v, s, lim)
    ensures Runs(names, EmitValue(o, lay, R4, v), s, t, lim)
    ensures t.regs.g[R4] == InR4(o, v, CtxOf(lay, names, s)) && Clobbers(s, t, R4, Depth(v))
    decreases v, 1
  {
    hide RunSeq, Exec, EmitValue;
    if v.Op? && !Folds(o, v.left, v.right) {
      OperatorCode(o, lay, v);
      var sp := s.regs.sp;
      var A, B := EmitValue(o, lay, R4, v.right), EmitValue(o, lay, R4, v.left);
      var tail := [Pop(R(R4)), Two(OpCode(v.op), R(R4), SReg(R(R4)))];
      var s1 := OperandsIntoR4(o, lay, names, v, v.left, v.right, s, sp - 2 * Depth(v), lim);
      RunsIp(names, A + [Push(R(R4))] + B, s, s1, lim);
      var y := Read16(s1.mem, sp - 2);
      t := s1.(regs := s1.regs.(sp := sp, ip := s1.regs.ip + 8, g := s1.regs.g[R4 := Wrap(BinArith(v.op, y, y))]));
      PopOverResult(names, v.op, s1, t, lim);
      RunsThen(names, A + [Push(R(R4))] + B, tail, s, s1, t, lim);
    } else {
      t := ExprCorrect(o, lay, names, R4, v, s, lim);
    }
  }

  /** When two copies of y give what x and r give. */
  predicate SameResult(op: BinOp, y: int, x: int, r: int) {
    match op
    case OpAdd => Wrap(2 * y - x - r) == 0
    case OpSub => x == r
    case OpMul => Wrap(y * y - x * r) == 0
  }

  lemma WrapDiff(x: int, y: int)
    ensures Wrap(x) == Wrap(y) <==> Wrap(x - y) == 0
  {
  }

  lemma WordDiff(x: u16, y: u16)
    ensures Wrap(0 - (x - y)) == 0 <==> x == y
  {
  }

  lemma SameResultIff(op: BinOp, y: u16, x: u16, r: u16)
    ensures Wrap(BinArith(op, y, y)) == Wrap(BinArith(op, x, r)) <==> SameResult(op, y, x, r)
  {
    hide Wrap;
    WrapDiff(BinArith(op, y, y), BinArith(op, x, r));
    WordDiff(x, r);
    match op
    case OpAdd => assert y + y - (x + r) == 2 * y - x - r;
    case OpSub => assert y - y - (x - r) == 0 - (x - r);
    case OpMul =>
  }

  /** A right operand that is no unfolded operator comes out right, and the condition is
      one on the two operands' values. */
  lemma SameResultPlain(op: BinOp, x: u16, y: u16)
    ensures SameResult(op, y, x, y) <==> if op.OpMul? then Wrap(y * (y - x)) == 0 else x == y
  {
    assert y * y - x * y == y * (y - x);
  }

  /**
   An operator evaluated into r4, whatever its operands are, is right if and only if two
   copies of what the right operand leaves in r4 give the result: for a difference exactly
   when both operands have the same value.
   */
  lemma R4RightIff(o: Options, lay: Layout, names: Names, v: Value, s: State, lim: int) returns (t: State)
    requires CanEvalInR4(o, lay, names, v, s, lim) && v.Op? && !Folds(o, v.left, v.right)
    ensures Runs(names, EmitValue(o, lay, R4, v), s, t, lim)
    ensures var c := CtxOf(lay, names, s);
            var x, r := Eval(v.left, c), Eval(v.right, c);
            && (t.regs.g[R4] == Eval(v, c) <==> SameResult(v.op, InR4(o, v.right, c), x, r))
            && (!v.right.Op? || Folds(o, v.right.left, v.right.right) ==>
                  (t.regs.g[R4] == Eval(v, c) <==> if v.op.OpMul? then Wrap(r * (r - x)) == 0 else x == r))
  {
    hide Runs, CanEvalInR4, Wrap, BinArith, SameResult;
    t := OperatorIntoR4(o, lay, names, v, s, lim);
    var c := CtxOf(lay, names, s);
    SameResultIff(v.op, InR4(o, v.right, c), Eval(v.left, c), Eval(v.right, c));
    SameResultPlain(v.op, Eval(v.left, c), Eval(v.right, c));
    assert Eval(v, c) == Wrap(BinArith(v.op, Eval(v.left, c), Eval(v.right, c)));
  }

  // The switches ---------------------------------------------------------------------

  /** The variables, strings, addresses and elements of the value mean the same in both
      contexts. */
  predicate Alike(v: Value, c: Ctx, d: Ctx) {
    match v
    case Imm(_) => true
    case Op(_, l, r) => Alike(l, c, d) && Alike(r, c, d)
    case _ => Eval(v, c) == Eval(v, d)
  }

  lemma {:induction false} AlikeEval(v: Value, c: Ctx, d: Ctx)
    requires Alike(v, c, d)
    ensures Eval(v, c) == Eval(v, d)
  {
    if v.Op? {
      AlikeEval(v.left, c, d);
      AlikeEval(v.right, c, d);
    }
  }

  /**
   Two builds of a value, with the switches set either way, each in its own frame, layout
   and symbol table: where the variables hold the same values, the registers do.
   */
  lemma ValueSwitches(o: Options, lay: Layout, names: Names, s: State, lim: int,
                      o': Options, lay': Layout, names': Names, s': State, lim': int, reg: GprIndex, v: Value)
    returns (t: State, t': State)
    requires CanEval(o, lay, names, reg, v, s, lim) && CanEval(o', lay', names', reg, v, s', lim')
    requires Alike(v, CtxOf(lay, names, s), CtxOf(lay', names', s'))
    ensures Runs(names, EmitValue(o, lay, reg, v), s, t, lim) && Runs(names', EmitValue(o', lay', reg, v), s', t', lim')
    ensures t.regs.g[reg] == t'.regs.g[reg] && t.regs.cf == s.regs.cf && t'.regs.cf == s'.regs.cf
  {
    hide Runs, CanEval, EmitValue, Eval, Alike;
    AlikeEval(v, CtxOf(lay, names, s), CtxOf(lay', names', s'));
    t := ExprCorrect(o, lay, names, reg, v, s, lim);
    t' := ExprCorrect(o', lay', names', reg, v, s', lim');
  }

  /** Two builds of a comparison, literal or register form, folded or not. */
  lemma CompareSwitches(o: Options, lay: Layout, names: Names, s: State, lim: int,
                        o': Options, lay': Layout, names': Names, s': State, lim': int, l: Value, r: Value)
    returns (t: State, t': State)
    requires CanCmp(o, lay, names, l, r, s, lim) && CanCmp(o', lay', names', l, r, s', lim')
    requires Alike(l, CtxOf(lay, names, s), CtxOf(lay', names', s'))
    requires Alike(r, CtxOf(lay, names, s), CtxOf(lay', names', s'))
    ensures Runs(names, EmitCmp(o, lay, l, r), s, t, lim) && Runs(names', EmitCmp(o', lay', l, r), s', t', lim')
    ensures t.regs.cf == t'.regs.cf
  {
    hide Runs, CanCmp, EmitCmp, Eval, Alike;
    AlikeEval(l, CtxOf(lay, names, s), CtxOf(lay', names', s'));
    AlikeEval(r, CtxOf(lay, names, s), CtxOf(lay', names', s'));
    t := CmpCorrect(o, lay, names, l, r, s, lim);
    t' := CmpCorrect(o', lay', names', l, r, s', lim');
  }
}
