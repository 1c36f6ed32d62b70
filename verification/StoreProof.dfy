/**
 The emitted code of stores, comparisons and call arguments.
 */
module StoreProof {
  import opened Words
  import opened Machine
  import opened Images
  import opened Values
  import opened Emit
  import opened ExprProof

  /** The address a store writes. */
  function PlaceAddr(p: Place, c: Ctx): u16 {
    match p
    case PVar(x, offset) => Wrap(c.bp - (Off(c.lay, x) - offset))
    case PGlobal(name) => c.Sym(GlobalSym(name))
    case PArray(x, offset, elemSize, index) =>
      Wrap(Eval(index, c) * Wrap(elemSize) + c.bp - (Off(c.lay, x) - offset))
    case PPointer(x, offset, elemSize, index) =>
      Wrap(c.Rd(Wrap(c.bp - (Off(c.lay, x) - offset))) + Eval(index, c) * Wrap(elemSize))
  }

  function PlaceDepth(p: Place): nat {
    match p
    case PArray(_, _, _, index) => Depth(index)
    case PPointer(_, _, _, index) => 1 + Depth(index)
    case _ => 0
  }

  ghost predicate CanStore(o: Options, lay: Layout, names: Names, res: GprIndex, p: Place, s: State, lim: int) {
    var c, sp := CtxOf(lay, names, s), s.regs.sp;
    && Room(s, |EmitStore(o, lay, res, R4, p)|)
    && 0 <= lim <= sp - 2 * PlaceDepth(p)
    && lim <= PlaceAddr(p, c) < 0xffff
    && match p
       case PGlobal(name) => res != R4 && GlobalSym(name) in names.addr
       case PVar(_, _) => res != R4
       case PArray(_, _, _, index) =>
         res != R4 && res != R6 && Sound(o, R4, index) && Safe(index, c, sp - 2 * PlaceDepth(p), sp)
       case PPointer(x, offset, _, index) =>
         && res != R4 && res != R6 && Sound(o, res, index) && Safe(index, c, sp - 2 * PlaceDepth(p), sp)
         && Clear(Wrap(c.bp - (Off(lay, x) - offset)), sp - 2 * PlaceDepth(p), sp)
  }

  /** The word at `a` is `v`; besides it only the `depth` words below sp and r4, r6 may differ. */
  ghost predicate Stored(s: State, t: State, a: u16, v: u16, depth: nat) {
    && a < 0xffff && Read16(t.mem, a) == v
    && (forall b | 0 <= b < 0x1_0000 && b != a && b != a + 1 && !(s.regs.sp - 2 * depth <= b < s.regs.sp) ::
          t.mem[b] == s.mem[b])
    && (forall i :: 0 <= i < 8 && i != 4 && i != 6 ==> t.regs.g[i] == s.regs.g[i])
    && t.regs.sp == s.regs.sp && t.regs.bp == s.regs.bp && t.regs.cf == s.regs.cf
  }

  lemma DoStore(names: Names, r: GprIndex, p: GprIndex, s: State, t: State, lim: int)
    requires Room(s, 1) && lim <= s.regs.g[p] < 0xffff
    requires t == State(s.regs.(ip := s.regs.ip + 4), Write16(s.mem, s.regs.g[p], s.regs.g[r]))
    ensures Runs(names, [Store(R(r), SReg(R(p)))], s, t, lim)
  {
    RunsOne(names, Store(R(r), SReg(R(p))), s, t, lim);
  }

  /** The final `store` writes the word and nothing else. */
  lemma StoreLast(names: Names, r: GprIndex, p: GprIndex, s: State, lim: int) returns (t: State)
    requires Room(s, 1) && lim <= s.regs.g[p] < 0xffff
    ensures Runs(names, [Store(R(r), SReg(R(p)))], s, t, lim)
    ensures Stored(s, t, s.regs.g[p], s.regs.g[r], 0) && t.regs == s.regs.(ip := s.regs.ip + 4)
  {
    hide RunSeq, Exec;
    t := State(s.regs.(ip := s.regs.ip + 4), Write16(s.mem, s.regs.g[p], s.regs.g[r]));
    DoStore(names, r, p, s, t, lim);
  }

  /** A store whose address code is straight: a plain local or a global. */
  lemma PlainStore(o: Options, lay: Layout, names: Names, res: GprIndex, p: Place, s: State, lim: int) returns (t: State)
    requires p.PVar? || p.PGlobal?
    requires CanStore(o, lay, names, res, p, s, lim)
    ensures Runs(names, EmitStore(o, lay, res, R4, p), s, t, lim)
    ensures Stored(s, t, PlaceAddr(p, CtxOf(lay, names, s)), s.regs.g[res], 0)
  {
    hide RunSeq, Exec;
    var a := PlaceAddr(p, CtxOf(lay, names, s));
    var code: seq<Instr>;
    var s1: State;
    match p {
      case PVar(x, offset) =>
        code := [MovReg(R(R4), BP), SubImm(R(R4), Off(lay, x) - offset)];
        s1 := Moved(s, R4, a, 2);
        FrameAddr(names, R4, Off(lay, x) - offset, s, s1, lim);
      case PGlobal(name) =>
        code := [MovSym(R(R4), GlobalSym(name))];
        s1 := Moved(s, R4, a, 1);
        assert names.Full(GlobalSym(name)) == GlobalSym(name);
        DoTwo(names, MOV, R4, SSym(GlobalSym(name)), a, s, lim);
    }
    t := StoreLast(names, res, R4, s1, lim);
    RunsThen(names, code, [Store(R(res), SReg(R(R4)))], s, s1, t, lim);
    assert EmitStore(o, lay, res, R4, p) == code + [Store(R(res), SReg(R(R4)))];
  }

  /** The three 16-bit steps from an index to an element's address. */
  lemma ElementWords(e: u16, size: int, bp: u16, d: int)
    ensures Wrap(Wrap(e * Wrap(size)) as int + bp as int) == Wrap(e * Wrap(size) + bp)
    ensures Wrap(Wrap(e * Wrap(size) + bp) as int - Wrap(d) as int) == Wrap(e * Wrap(size) + bp - d)
  {
    hide Wrap;
    var x: int := e * Wrap(size);
    WrapAdd(x, bp);
    WrapSub(x + bp, d);
    WrapSub(Wrap(x + bp), d);
  }

  /** `mul r4, size`, `add r4, bp`, `sub r4, d`. */
  lemma ElementAddr(names: Names, size: int, d: int, s: State, t: State, lim: int)
    requires Room(s, 3)
    requires t == Moved(s, R4, Wrap(s.regs.g[R4] * Wrap(size) + s.regs.bp - d), 3)
    ensures Runs(names, [Two(MUL, R(R4), SImm(size)), AddReg(R(R4), BP), SubImm(R(R4), d)], s, t, lim)
  {
    hide RunSeq, Exec, Wrap;
    var x: int := s.regs.g[R4] * Wrap(size);
    var s1 := Moved(s, R4, Wrap(x), 1);
    var s2 := Moved(s1, R4, Wrap(x + s.regs.bp), 1);
    ElementWords(s.regs.g[R4], size, s.regs.bp, d);
    DoTwo(names, MUL, R4, SImm(size), Wrap(size), s, lim);
    DoTwo(names, ADD, R4, SReg(BP), s.regs.bp, s1, lim);
    DoTwo(names, SUB, R4, SImm(d), Wrap(d), s2, lim);
    Runs2(names, Two(MUL, R(R4), SImm(size)), AddReg(R(R4), BP), s, s1, s2, lim);
    RunsThen(names, [Two(MUL, R(R4), SImm(size)), AddReg(R(R4), BP)], [SubImm(R(R4), d)], s, s2, t, lim);
    assert [Two(MUL, R(R4), SImm(size)), AddReg(R(R4), BP), SubImm(R(R4), d)]
        == [Two(MUL, R(R4), SImm(size)), AddReg(R(R4), BP)] + [SubImm(R(R4), d)];
  }

  lemma ArrayStore(o: Options, lay: Layout, names: Names, res: GprIndex, p: Place, s: State, lim: int) returns (t: State)
    requires p.PArray?
    requires CanStore(o, lay, names, res, p, s, lim)
    ensures Runs(names, EmitStore(o, lay, res, R4, p), s, t, lim)
    ensures Stored(s, t, PlaceAddr(p, CtxOf(lay, names, s)), s.regs.g[res], PlaceDepth(p))
  {
    hide RunSeq, Exec, Eval, Safe, Sound, Depth, EmitValue;
    var d := Off(lay, p.x) - p.offset;
    var a := PlaceAddr(p, CtxOf(lay, names, s));
    var A := EmitValue(o, lay, R4, p.index);
    var B := [Two(MUL, R(R4), SImm(p.elemSize)), AddReg(R(R4), BP), SubImm(R(R4), d)];
    var C := [Store(R(res), SReg(R(R4)))];
    var s1 := ExprCorrect(o, lay, names, R4, p.index, s, lim);
    RunsIp(names, A, s, s1, lim);
    var s2 := Moved(s1, R4, a, 3);
    ElementAddr(names, p.elemSize, d, s1, s2, lim);
    t := StoreLast(names, res, R4, s2, lim);
    RunsThen(names, B, C, s1, s2, t, lim);
    RunsThen(names, A, B + C, s, s1, t, lim);
    assert EmitStore(o, lay, res, R4, p) == A + (B + C);
  }

  /** `mul res, size`, then the pointer into r4 and their sum. */
  lemma BehindPointer(names: Names, res: GprIndex, size: int, d: int, s: State, t: State, lim: int)
    requires Room(s, 5) && res != R4 && Wrap(s.regs.bp - d) < 0xffff
    requires var scaled := Wrap(s.regs.g[res] * Wrap(size));
             t == Moved(Moved(s, res, scaled, 1), R4, Wrap(Read16(s.mem, Wrap(s.regs.bp - d)) + scaled), 4)
    ensures Runs(names, [Two(MUL, R(res), SImm(size)), MovReg(R(R4), BP), SubImm(R(R4), d),
                         Load(R(R4), SReg(R(R4))), AddReg(R(R4), R(res))], s, t, lim)
  {
    hide RunSeq, Exec;
    var scaled := Wrap(s.regs.g[res] * Wrap(size));
    var q := Wrap(s.regs.bp - d);
    var s1 := Moved(s, res, scaled, 1);
    var s2 := Moved(s1, R4, q, 2);
    var s3 := Moved(s2, R4, Read16(s.mem, q), 1);
    DoTwo(names, MUL, res, SImm(size), Wrap(size), s, lim);
    FrameAddr(names, R4, d, s1, s2, lim);
    DoLoad(names, R4, R4, s2, lim);
    DoTwo(names, ADD, R4, SReg(R(res)), scaled, s3, lim);
    assert t == Moved(s3, R4, Wrap(Read16(s.mem, q) + scaled), 1);
    Runs2(names, Load(R(R4), SReg(R(R4))), AddReg(R(R4), R(res)), s2, s3, t, lim);
    var m, f, l := [Two(MUL, R(res), SImm(size))], [MovReg(R(R4), BP), SubImm(R(R4), d)],
                   [Load(R(R4), SReg(R(R4))), AddReg(R(R4), R(res))];
    RunsThen(names, f, l, s1, s2, t, lim);
    RunsThen(names, m, f + l, s, s1, t, lim);
    assert m + (f + l) == [Two(MUL, R(res), SImm(size)), MovReg(R(R4), BP), SubImm(R(R4), d),
                           Load(R(R4), SReg(R(R4))), AddReg(R(R4), R(res))];
  }

  /** The address, the stored register back, and the store. */
  lemma PointerTail(names: Names, res: GprIndex, size: int, d: int, v: u16, s: State, lim: int) returns (t: State)
    requires Room(s, 7) && res != R4 && Wrap(s.regs.bp - d) < 0xffff
    requires s.regs.sp + 2 < 0x1_0000 && Read16(s.mem, s.regs.sp) == v
    requires lim <= Wrap(Read16(s.mem, Wrap(s.regs.bp - d)) + Wrap(s.regs.g[res] * Wrap(size))) < 0xffff
    ensures Runs(names, [Two(MUL, R(res), SImm(size)), MovReg(R(R4), BP), SubImm(R(R4), d),
                         Load(R(R4), SReg(R(R4))), AddReg(R(R4), R(res))] +
                        [Pop(R(res)), Store(R(res), SReg(R(R4)))], s, t, lim)
    ensures var a := Wrap(Read16(s.mem, Wrap(s.regs.bp - d)) + Wrap(s.regs.g[res] * Wrap(size)));
            && Read16(t.mem, a) == v
            && (forall b | 0 <= b < 0x1_0000 && b != a && b != a + 1 :: t.mem[b] == s.mem[b])
            && (forall i :: 0 <= i < 8 && i != 4 && i != res ==> t.regs.g[i] == s.regs.g[i])
            && t.regs.g[res] == v && t.regs.sp == s.regs.sp + 2 && t.regs.bp == s.regs.bp && t.regs.cf == s.regs.cf
  {
    hide RunSeq, Exec;
    var q := Wrap(s.regs.bp - d);
    var scaled := Wrap(s.regs.g[res] * Wrap(size));
    var s1 := Moved(Moved(s, res, scaled, 1), R4, Wrap(Read16(s.mem, q) + scaled), 4);
    BehindPointer(names, res, size, d, s, s1, lim);
    var s2 := s1.(regs := s1.regs.(sp := s.regs.sp + 2, ip := s1.regs.ip + 4, g := s1.regs.g[res := v]));
    DoPop(names, res, s1, s2, lim);
    t := StoreLast(names, res, R4, s2, lim);
    Runs2(names, Pop(R(res)), Store(R(res), SReg(R(R4))), s1, s2, t, lim);
    RunsThen(names, [Two(MUL, R(res), SImm(size)), MovReg(R(R4), BP), SubImm(R(R4), d),
                     Load(R(R4), SReg(R(R4))), AddReg(R(R4), R(res))],
             [Pop(R(res)), Store(R(res), SReg(R(R4)))], s, s1, t, lim);
  }

  /** Saving the stored register, then the index in its place. */
  lemma PointerIndex(o: Options, lay: Layout, names: Names, res: GprIndex, p: Place, s: State, lim: int) returns (t: State)
    requires p.PPointer?
    requires CanStore(o, lay, names, res, p, s, lim)
    ensures Runs(names, [Push(R(res))] + EmitValue(o, lay, res, p.index), s, t, lim)
    ensures t.regs.sp == s.regs.sp - 2 && Read16(t.mem, s.regs.sp - 2) == s.regs.g[res]
    ensures t.regs.g[res] == Eval(p.index, CtxOf(lay, names, s))
    ensures forall i :: 0 <= i < 8 && i != 4 && i != 6 && i != res ==> t.regs.g[i] == s.regs.g[i]
    ensures t.regs.bp == s.regs.bp && t.regs.cf == s.regs.cf
    ensures SameOutside(s.mem, t.mem, s.regs.sp - 2 * PlaceDepth(p), s.regs.sp)
  {
    hide RunSeq, Exec, Eval, Safe, Sound, Depth, EmitValue;
    var c, sp := CtxOf(lay, names, s), s.regs.sp;
    var lo := sp - 2 * PlaceDepth(p);
    var s1 := State(s.regs.(sp := sp - 2, ip := s.regs.ip + 4), Write16(s.mem, sp - 2, s.regs.g[res]));
    DoPush(names, res, s, s1, lim);
    Write16Read16(s.mem, sp - 2, s.regs.g[res]);
    EvalFrame(p.index, c, s1.mem, lo, sp);
    SafeShrink(p.index, CtxOf(lay, names, s1), lo, sp, sp - 2 - 2 * Depth(p.index), sp - 2);
    t := ExprCorrect(o, lay, names, res, p.index, s1, lim);
    assert t.mem[sp - 2] == s1.mem[sp - 2] && t.mem[sp - 1] == s1.mem[sp - 1];
    RunsThen(names, [Push(R(res))], EmitValue(o, lay, res, p.index), s, s1, t, lim);
  }

  /** What a store through a pointer asks for, piece by piece. */
  lemma PointerParts(o: Options, lay: Layout, names: Names, res: GprIndex, p: Place, s: State, lim: int)
    requires p.PPointer? && CanStore(o, lay, names, res, p, s, lim)
    ensures var c, d := CtxOf(lay, names, s), Off(lay, p.x) - p.offset;
            && res != R4 && res != R6 && 0 <= lim <= s.regs.sp - 2 * PlaceDepth(p) && PlaceDepth(p) >= 1
            && Clear(Wrap(s.regs.bp - d), s.regs.sp - 2 * PlaceDepth(p), s.regs.sp)
            && PlaceAddr(p, c) == Wrap(c.Rd(Wrap(s.regs.bp - d)) + Eval(p.index, c) * Wrap(p.elemSize))
            && lim <= PlaceAddr(p, c) < 0xffff
            && EmitStore(o, lay, res, R4, p) ==
               ([Push(R(res))] + EmitValue(o, lay, res, p.index)) +
               ([Two(MUL, R(res), SImm(p.elemSize)), MovReg(R(R4), BP), SubImm(R(R4), d),
                 Load(R(R4), SReg(R(R4))), AddReg(R(R4), R(res))] + [Pop(R(res)), Store(R(res), SReg(R(R4)))])
            && Room(s, |EmitStore(o, lay, res, R4, p)|)
  {
    hide Eval, Safe, Sound, Depth, EmitValue;
  }

  /** The address the code computes behind the pointer is the place's. */
  lemma BehindAddr(lay: Layout, names: Names, p: Place, d: int, i: u16, s: State, m: Memory, lo: int)
    requires p.PPointer? && d == Off(lay, p.x) - p.offset
    requires Clear(Wrap(s.regs.bp - d), lo, s.regs.sp) && SameOutside(s.mem, m, lo, s.regs.sp)
    requires i == Eval(p.index, CtxOf(lay, names, s))
    ensures Wrap(s.regs.bp - d) < 0xffff
    ensures Wrap(Read16(m, Wrap(s.regs.bp - d)) + Wrap(i * Wrap(p.elemSize))) == PlaceAddr(p, CtxOf(lay, names, s))
  {
    hide Eval, Read16, SameOutside;
    var c := CtxOf(lay, names, s);
    RdFrame(Wrap(s.regs.bp - d), c, m, lo, s.regs.sp);
    WrapAdd(c.Rd(Wrap(s.regs.bp - d)), i * Wrap(p.elemSize));
  }

  /** The word is written, and what the two halves of the code changed besides is scratch. */
  lemma StoredBehind(s: State, s1: State, t: State, res: GprIndex, a: u16, depth: nat)
    requires a < 0xffff && Read16(t.mem, a) == s.regs.g[res] && depth >= 1
    requires SameOutside(s.mem, s1.mem, s.regs.sp - 2 * depth, s.regs.sp)
    requires forall b | 0 <= b < 0x1_0000 && b != a && b != a + 1 :: t.mem[b] == s1.mem[b]
    requires forall i :: 0 <= i < 8 && i != 4 && i != 6 && i != res ==> s1.regs.g[i] == s.regs.g[i]
    requires forall i :: 0 <= i < 8 && i != 4 && i != res ==> t.regs.g[i] == s1.regs.g[i]
    requires t.regs.g[res] == s.regs.g[res]
    requires t.regs.sp == s.regs.sp && t.regs.bp == s.regs.bp && t.regs.cf == s.regs.cf
    ensures Stored(s, t, a, s.regs.g[res], depth)
  {
    hide Read16;
  }

  lemma PointerStore(o: Options, lay: Layout, names: Names, res: GprIndex, p: Place, s: State, lim: int) returns (t: State)
    requires p.PPointer?
    requires CanStore(o, lay, names, res, p, s, lim)
    ensures Runs(names, EmitStore(o, lay, res, R4, p), s, t, lim)
    ensures Stored(s, t, PlaceAddr(p, CtxOf(lay, names, s)), s.regs.g[res], PlaceDepth(p))
  {
    hide RunSeq, Exec, Eval, Safe, Sound, Depth, EmitValue, Runs, Read16, SameOutside, PlaceDepth, Stored, Clear, Wrap,
         CanStore, EmitStore, PlaceAddr, CtxOf;
    PointerParts(o, lay, names, res, p, s, lim);
    var d := Off(lay, p.x) - p.offset;
    var A := [Push(R(res))] + EmitValue(o, lay, res, p.index);
    var B := [Two(MUL, R(res), SImm(p.elemSize)), MovReg(R(R4), BP), SubImm(R(R4), d),
              Load(R(R4), SReg(R(R4))), AddReg(R(R4), R(res))] + [Pop(R(res)), Store(R(res), SReg(R(R4)))];
    var s1 := PointerIndex(o, lay, names, res, p, s, lim);
    RunsIp(names, A, s, s1, lim);
    BehindAddr(lay, names, p, d, s1.regs.g[res], s, s1.mem, s.regs.sp - 2 * PlaceDepth(p));
    t := PointerTail(names, res, p.elemSize, d, s.regs.g[res], s1, lim);
    RunsThen(names, A, B, s, s1, t, lim);
    StoredBehind(s, s1, t, res, PlaceAddr(p, CtxOf(lay, names, s)), PlaceDepth(p));
  }

  /** Every store writes exactly the word its place denotes. */
  lemma StoreCorrect(o: Options, lay: Layout, names: Names, res: GprIndex, p: Place, s: State, lim: int) returns (t: State)
    requires CanStore(o, lay, names, res, p, s, lim)
    ensures Runs(names, EmitStore(o, lay, res, R4, p), s, t, lim)
    ensures Stored(s, t, PlaceAddr(p, CtxOf(lay, names, s)), s.regs.g[res], PlaceDepth(p))
  {
    hide RunSeq, Exec;
    match p
    case PArray(_, _, _, _) => t := ArrayStore(o, lay, names, res, p, s, lim);
    case PPointer(_, _, _, _) => t := PointerStore(o, lay, names, res, p, s, lim);
    case _ => t := PlainStore(o, lay, names, res, p, s, lim);
  }

  // Comparisons ----------------------------------------------------------

  lemma DoCmp(names: Names, l: GprIndex, src: Src, y: u16, s: State, t: State, lim: int)
    requires Room(s, 1) && Operand(names, src, s, y)
    requires t == s.(regs := s.regs.(cf := s.regs.g[l] == y, ip := s.regs.ip + 4))
    ensures Runs(names, [Two(CMP, R(l), src)], s, t, lim)
  {
    hide Arith, RunSeq;
    RunsOne(names, Two(CMP, R(l), src), s, t, lim);
  }

  function Max(x: nat, y: nat): nat {
    if x >= y then x else y
  }

  ghost predicate CanCmp(o: Options, lay: Layout, names: Names, l: Value, r: Value, s: State, lim: int) {
    var d := 2 * Max(Depth(l), Depth(r));
    && Sound(o, R5, l) && Sound(o, R6, r)
    && Room(s, |EmitCmp(o, lay, l, r)|)
    && 0 <= lim <= s.regs.sp - d
    && Safe(l, CtxOf(lay, names, s), s.regs.sp - d, s.regs.sp)
    && Safe(r, CtxOf(lay, names, s), s.regs.sp - d, s.regs.sp)
  }

  /** What the comparison code guarantees. */
  ghost predicate Compared(lay: Layout, names: Names, l: Value, r: Value, s: State, t: State) {
    && t.regs.cf == (Eval(l, CtxOf(lay, names, s)) == Eval(r, CtxOf(lay, names, s)))
    && t.regs.sp == s.regs.sp && t.regs.bp == s.regs.bp
    && (forall i :: 0 <= i < 8 && i != 4 && i != 5 && i != 6 ==> t.regs.g[i] == s.regs.g[i])
    && SameOutside(s.mem, t.mem, s.regs.sp - 2 * Max(Depth(l), Depth(r)), s.regs.sp)
  }

  /** Left operand into r5, compared with a literal. */
  lemma CmpLiteral(o: Options, lay: Layout, names: Names, l: Value, r: Value, s: State, lim: int) returns (t: State)
    requires CanCmp(o, lay, names, l, r, s, lim) && o.cmpLiteral && r.Imm?
    ensures Runs(names, EmitCmp(o, lay, l, r), s, t, lim) && Compared(lay, names, l, r, s, t)
  {
    hide RunSeq, Exec;
    var c, sp := CtxOf(lay, names, s), s.regs.sp;
    var A := EmitValue(o, lay, R5, l);
    SafeShrink(l, c, sp - 2 * Max(Depth(l), Depth(r)), sp, sp - 2 * Depth(l), sp);
    var s1 := ExprCorrect(o, lay, names, R5, l, s, lim);
    RunsIp(names, A, s, s1, lim);
    t := s1.(regs := s1.regs.(cf := s1.regs.g[R5] == Wrap(r.n), ip := s1.regs.ip + 4));
    DoCmp(names, R5, SImm(r.n), Wrap(r.n), s1, t, lim);
    RunsThen(names, A, [Two(CMP, R(R5), SImm(r.n))], s, s1, t, lim);
  }

  /** Left operand into r5, right operand into r6. */
  lemma CmpOperands(o: Options, lay: Layout, names: Names, l: Value, r: Value, s: State, lim: int) returns (t: State)
    requires CanCmp(o, lay, names, l, r, s, lim) && !(o.cmpLiteral && r.Imm?)
    ensures Runs(names, EmitValue(o, lay, R5, l) + EmitValue(o, lay, R6, r), s, t, lim)
    ensures t.regs.g[R5] == Eval(l, CtxOf(lay, names, s)) && t.regs.g[R6] == Eval(r, CtxOf(lay, names, s))
    ensures t.regs.sp == s.regs.sp && t.regs.bp == s.regs.bp
    ensures forall i :: 0 <= i < 8 && i != 4 && i != 5 && i != 6 ==> t.regs.g[i] == s.regs.g[i]
    ensures SameOutside(s.mem, t.mem, s.regs.sp - 2 * Max(Depth(l), Depth(r)), s.regs.sp)
  {
    hide RunSeq, Exec, Eval, Safe, Sound, Depth, EmitValue;
    var c, sp := CtxOf(lay, names, s), s.regs.sp;
    var lo := sp - 2 * Max(Depth(l), Depth(r));
    SafeShrink(l, c, lo, sp, sp - 2 * Depth(l), sp);
    var s1 := ExprCorrect(o, lay, names, R5, l, s, lim);
    RunsIp(names, EmitValue(o, lay, R5, l), s, s1, lim);
    EvalFrame(r, c, s1.mem, lo, sp);
    SafeShrink(r, CtxOf(lay, names, s1), lo, sp, sp - 2 * Depth(r), sp);
    t := ExprCorrect(o, lay, names, R6, r, s1, lim);
    RunsThen(names, EmitValue(o, lay, R5, l), EmitValue(o, lay, R6, r), s, s1, t, lim);
  }

  lemma CmpRegisters(o: Options, lay: Layout, names: Names, l: Value, r: Value, s: State, lim: int) returns (t: State)
    requires CanCmp(o, lay, names, l, r, s, lim) && !(o.cmpLiteral && r.Imm?)
    ensures Runs(names, EmitCmp(o, lay, l, r), s, t, lim) && Compared(lay, names, l, r, s, t)
  {
    hide RunSeq, Exec, Eval, Safe, Sound, Depth, EmitValue;
    var A, B := EmitValue(o, lay, R5, l), EmitValue(o, lay, R6, r);
    var last := [Two(CMP, R(R5), SReg(R(R6)))];
    var s1 := CmpOperands(o, lay, names, l, r, s, lim);
    RunsIp(names, A + B, s, s1, lim);
    var y := s1.regs.g[R6];
    t := s1.(regs := s1.regs.(cf := s1.regs.g[R5] == y, ip := s1.regs.ip + 4));
    DoCmp(names, R5, SReg(R(R6)), y, s1, t, lim);
    RunsThen(names, A + B, last, s, s1, t, lim);
    assert EmitCmp(o, lay, l, r) == A + B + last;
  }

  /** The compare flag says whether the two values are equal, with or without the
      literal comparison. */
  lemma CmpCorrect(o: Options, lay: Layout, names: Names, l: Value, r: Value, s: State, lim: int) returns (t: State)
    requires CanCmp(o, lay, names, l, r, s, lim)
    ensures Runs(names, EmitCmp(o, lay, l, r), s, t, lim) && Compared(lay, names, l, r, s, t)
  {
    hide RunSeq, Exec;
    if o.cmpLiteral && r.Imm? {
      t := CmpLiteral(o, lay, names, l, r, s, lim);
    } else {
      t := CmpRegisters(o, lay, names, l, r, s, lim);
    }
  }

  // Call arguments -------------------------------------------------------

  function MaxDepth(args: seq<Value>): nat {
    if args == [] then 0 else Max(MaxDepth(args[..|args| - 1]), Depth(args[|args| - 1]))
  }

  ghost predicate CanPass(o: Options, lay: Layout, names: Names, args: seq<Value>, s: State, lim: int) {
    && |args| <= 4
    && (forall i :: 0 <= i < |args| ==> Sound(o, i, args[i]))
    && Room(s, |EmitArgs(o, lay, args)|)
    && 0 <= lim <= s.regs.sp - 2 * MaxDepth(args)
    && (forall i :: 0 <= i < |args| ==>
          Safe(args[i], CtxOf(lay, names, s), s.regs.sp - 2 * MaxDepth(args), s.regs.sp))
  }

  /** After the argument code register i holds argument i, for every argument at once. */
  lemma {:induction false} ArgsCorrect(o: Options, lay: Layout, names: Names, args: seq<Value>, s: State, lim: int)
    returns (t: State)
    requires CanPass(o, lay, names, args, s, lim)
    ensures Runs(names, EmitArgs(o, lay, args), s, t, lim)
    ensures forall i :: 0 <= i < |args| ==> t.regs.g[i] == Eval(args[i], CtxOf(lay, names, s))
    ensures forall i :: |args| <= i < 8 && i != 4 && i != 6 ==> t.regs.g[i] == s.regs.g[i]
    ensures t.regs.sp == s.regs.sp && t.regs.bp == s.regs.bp && t.regs.cf == s.regs.cf
    ensures SameOutside(s.mem, t.mem, s.regs.sp - 2 * MaxDepth(args), s.regs.sp)
    decreases |args|
  {
    hide Exec, Eval, Safe, Sound, Depth, EmitValue;
    if args == [] {
      t := s;
    } else {
      var n := |args| - 1;
      var v, init := args[n], args[..n];
      var c, sp := CtxOf(lay, names, s), s.regs.sp;
      var lo := sp - 2 * MaxDepth(args);
      forall i | 0 <= i < n ensures Safe(init[i], c, sp - 2 * MaxDepth(init), sp) {
        SafeShrink(args[i], c, lo, sp, sp - 2 * MaxDepth(init), sp);
      }
      var s1 := ArgsCorrect(o, lay, names, init, s, lim);
      RunsIp(names, EmitArgs(o, lay, init), s, s1, lim);
      EvalFrame(v, c, s1.mem, lo, sp);
      SafeShrink(v, CtxOf(lay, names, s1), lo, sp, sp - 2 * Depth(v), sp);
      t := ExprCorrect(o, lay, names, n, v, s1, lim);
      RunsThen(names, EmitArgs(o, lay, init), EmitValue(o, lay, ArgReg(n), v), s, s1, t, lim);
    }
  }
}
