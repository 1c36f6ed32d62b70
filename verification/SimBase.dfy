/**
 One activation of a compiled function on the machine: its frame, the variables the
 frame encodes, and what each single block does to them.
 */
module SimBase {
  import opened Words
  import opened Machine
  import opened Images
  import opened Values
  import opened Emit
  import opened ExprProof
  import opened StoreProof
  import opened Compile
  import opened FuncCode
  import opened Traces

  type Store = map<Var, u16>

  /** What stays fixed while a function's blocks run. */
  datatype Unit = Unit(img: Image, marks: seq<Mark>, o: Options, lay: Layout, names: Names, size: nat, bp: u16) {
    /** Stack bytes between the frame and the protected limit. */
    function Free(): int {
      bp - size - img.lim
    }

    ghost predicate Ok() {
      && img.Fits() && 0 <= Free() && bp < 0xffff
      && (forall x :: x in lay ==> 2 <= lay[x] <= size && lay[x] % 2 == 0)
      && Separate(lay)
    }
  }

  /** Different locals start at different offsets. */
  ghost predicate Separate(lay: Layout) {
    forall x, y :: x in lay && y in lay && x != y ==> lay[x] != lay[y]
  }

  /** Each variable's word lies in the frame. */
  ghost predicate Encodes(u: Unit, w: Store, m: Memory) {
    forall x :: x in w ==> x in u.lay && 2 <= u.lay[x] <= u.bp && Read16(m, u.bp - u.lay[x]) == w[x]
  }

  /** Between blocks: bp is the frame's, sp lies right below the locals. */
  ghost predicate InFrame(u: Unit, s: State, w: Store) {
    u.Ok() && s.regs.bp == u.bp && s.regs.sp == u.bp - u.size && Encodes(u, w, s.mem)
  }

  /** The blocks stand from instruction k on, their marks beside them. */
  ghost predicate At(u: Unit, bs: seq<Block>, k: nat) {
    && k <= |u.img.ins| && Loaded(EmitBlocks(u.o, u.lay, bs), k, u.img, u.names)
    && MarksAt(u.marks, k, BlocksMarks(u.o, u.lay, bs))
  }

  /** The machine gets from s to t and shows these events on the way. */
  ghost predicate Goes(u: Unit, s: State, t: State, evs: seq<Event>) {
    Shows(u.img, u.marks, s, t, evs)
  }

  lemma GoesSelf(u: Unit, s: State)
    ensures Goes(u, s, s, [])
  {
    ShowsSelf(u.img, u.marks, s);
  }

  lemma GoesTrans(u: Unit, s: State, t: State, v: State, a: seq<Event>, b: seq<Event>)
    requires Goes(u, s, t, a) && Goes(u, t, v, b)
    ensures Goes(u, s, v, a + b)
  {
    hide Shows;
    ShowsTrans(u.img, u.marks, s, t, v, a, b);
  }

  /** On from a stretch that shows nothing. */
  lemma GoesOn(u: Unit, s: State, t: State, v: State, b: seq<Event>)
    requires Goes(u, s, t, []) && Goes(u, t, v, b)
    ensures Goes(u, s, v, b)
  {
    GoesTrans(u, s, t, v, [], b);
    assert [] + b == b;
  }

  /** A stretch that shows nothing comes last. */
  lemma GoesQuiet(u: Unit, s: State, t: State, v: State, a: seq<Event>)
    requires Goes(u, s, t, a) && Goes(u, t, v, [])
    ensures Goes(u, s, v, a)
  {
    GoesTrans(u, s, t, v, a, []);
    assert a + [] == a;
  }

  function Size(u: Unit, bs: seq<Block>): nat {
    Count(EmitBlocks(u.o, u.lay, bs))
  }

  /** The machine stands at instruction k. */
  predicate Stands(s: State, k: nat) {
    s.regs.ip == 4 * k
  }

  lemma {:induction false} LoadedBound(code: seq<Line>, k: nat, img: Image, names: Names)
    requires Loaded(code, k, img, names) && k <= |img.ins|
    ensures k + Count(code) <= |img.ins|
  {
    if code != [] {
      LoadedBound(code[1..], if code[0].Ins? then k + 1 else k, img, names);
    }
  }

  lemma EmptyBlocks(u: Unit)
    ensures Size(u, []) == 0
  {
    assert EmitBlocks(u.o, u.lay, []) == [];
  }

  lemma AtAppend(u: Unit, a: seq<Block>, b: seq<Block>, k: nat)
    requires At(u, a + b, k)
    ensures At(u, a, k) && At(u, b, k + Size(u, a)) && Size(u, a + b) == Size(u, a) + Size(u, b)
  {
    hide Loaded, EmitBlocks, Count, BlocksMarks, MarksAt;
    EmitBlocksAppend(u.o, u.lay, a, b);
    BlocksMarksAppend(u.o, u.lay, a, b);
    BlocksMarksCount(u.o, u.lay, a);
    MarksAppend(u.marks, k, BlocksMarks(u.o, u.lay, a), BlocksMarks(u.o, u.lay, b));
    CountAppend(EmitBlocks(u.o, u.lay, a), EmitBlocks(u.o, u.lay, b));
    LoadedAppend(EmitBlocks(u.o, u.lay, a), EmitBlocks(u.o, u.lay, b), k, u.img, u.names);
    LoadedBound(EmitBlocks(u.o, u.lay, a), k, u.img, u.names);
  }

  lemma AtOne(u: Unit, b: Block, k: nat)
    requires At(u, [b], k)
    ensures Loaded(EmitBlock(u.o, u.lay, b), k, u.img, u.names)
    ensures Size(u, [b]) == Count(EmitBlock(u.o, u.lay, b))
    ensures k + Size(u, [b]) <= |u.img.ins|
    ensures MarksAt(u.marks, k, EndMarks(BlockMark(b), |BlockCode(u.o, u.lay, b)|))
  {
    hide BlockCode, BlockMark;
    assert [b][1..] == [] && EmitBlocks(u.o, u.lay, []) == [];
    assert EmitBlocks(u.o, u.lay, [b]) == EmitBlock(u.o, u.lay, b) + [] == EmitBlock(u.o, u.lay, b);
    LoadedBound(EmitBlocks(u.o, u.lay, [b]), k, u.img, u.names);
    OneMarks(u, b);
  }

  lemma OneMarks(u: Unit, b: Block)
    ensures BlocksMarks(u.o, u.lay, [b]) == EndMarks(BlockMark(b), |BlockCode(u.o, u.lay, b)|)
  {
    hide BlockCode, BlockMark;
    assert [b][1..] == [] && BlocksMarks(u.o, u.lay, []) == [];
    var m := EndMarks(BlockMark(b), |BlockCode(u.o, u.lay, b)|);
    assert m + [] == m;
  }

  /** Loaded block code that runs straight takes the machine to its end, an instruction a
      step, and shows what the block is marked with. */
  lemma BlockTakes(u: Unit, b: Block, k: nat, s: State, t: State)
    requires At(u, [b], k) && Stands(s, k) && !b.LabelB?
    requires Runs(u.names, BlockCode(u.o, u.lay, b), s, t, u.img.lim)
    ensures Takes(u.img, u.marks, s, t, Size(u, [b]), Show(BlockMark(b), t)) && Stands(t, k + Size(u, [b]))
  {
    hide Loaded, Exec, BlockCode, BlockMark, Takes, Show, MarksAt;
    AtOne(u, b, k);
    BlockCount(u.o, u.lay, b);
    StraightTakes(u.names, BlockCode(u.o, u.lay, b), BlockMark(b), k, u.img, u.marks, s);
  }

  lemma BlockGoes(u: Unit, b: Block, k: nat, s: State, t: State)
    requires At(u, [b], k) && Stands(s, k) && !b.LabelB?
    requires Runs(u.names, BlockCode(u.o, u.lay, b), s, t, u.img.lim)
    ensures Goes(u, s, t, Show(BlockMark(b), t)) && Stands(t, k + Size(u, [b]))
  {
    hide At, Size, Runs, BlockCode, Takes, BlockMark, Show;
    BlockTakes(u, b, k, s, t);
  }

  lemma BlockRoom(u: Unit, b: Block, k: nat, s: State)
    requires At(u, [b], k) && Stands(s, k) && u.img.Fits() && !b.LabelB?
    ensures Room(s, |BlockCode(u.o, u.lay, b)|) && Size(u, [b]) == |BlockCode(u.o, u.lay, b)|
  {
    hide Loaded, Exec, BlockCode;
    AtOne(u, b, k);
    CountLines(BlockCode(u.o, u.lay, b));
  }

  // Integer values -----------------------------------------------------------

  /** The value of a tree of immediates, plain locals and operators over a store. */
  function AEval(v: Value, w: Store): Option<u16> {
    match v
    case Imm(n) => Some(Wrap(n))
    case Local(x, 0, false, false) => if x in w then Some(w[x]) else None
    case Op(op, l, r) =>
      (match (AEval(l, w), AEval(r, w))
       case (Some(x), Some(y)) => Some(Wrap(BinArith(op, x, y)))
       case _ => None)
    case _ => None
  }

  lemma LocalRead(u: Unit, x: Var, s: State, w: Store, lo: int)
    requires InFrame(u, s, w) && x in w
    ensures var c := CtxOf(u.lay, u.names, s);
            var a := Wrap(c.bp - (Off(c.lay, x) - 0));
            Clear(a, lo, s.regs.sp) && c.Rd(a) == w[x]
  {
    hide Separate;
    var a := u.bp - u.lay[x];
    assert x in u.lay && 0 <= a < 0xffff && s.regs.sp <= a;
    assert Wrap(u.bp - (u.lay[x] - 0)) == a;
  }

  /** An integer value over the frame is safe to evaluate anywhere below it, and means
      what it means over the store. */
  lemma {:induction false} IntEval(u: Unit, v: Value, s: State, w: Store, lo: int)
    requires InFrame(u, s, w) && AEval(v, w).Some?
    ensures Safe(v, CtxOf(u.lay, u.names, s), lo, s.regs.sp)
    ensures Eval(v, CtxOf(u.lay, u.names, s)) == AEval(v, w).value
  {
    hide InFrame, Wrap, BinArith, Clear;
    match v
    case Op(_, l, r) =>
      IntEval(u, l, s, w, lo);
      IntEval(u, r, s, w, lo);
    case Local(x, _, _, _) => LocalRead(u, x, s, w, lo);
    case _ =>
  }

  lemma {:induction false} IntSound(o: Options, reg: GprIndex, v: Value, w: Store)
    requires AEval(v, w).Some? && reg != R4
    ensures Sound(o, reg, v)
  {
    if v.Op? {
      IntSound(o, reg, v.left, w);
      IntSound(o, reg, v.right, w);
    }
  }

  // Frames survive what happens below and above them ------------------------------

  lemma EncodesBelow(u: Unit, w: Store, m: Memory, n: Memory, lo: int)
    requires u.Ok() && Encodes(u, w, m) && SameOutside(m, n, lo, u.bp - u.size)
    ensures Encodes(u, w, n) && SameAbove(m, n, u.bp)
  {
    forall x | x in w ensures Read16(n, u.bp - u.lay[x]) == w[x] {
      var a := u.bp - u.lay[x];
      assert m[a] == n[a] && m[a + 1] == n[a + 1];
    }
  }

  lemma OtherLocal(u: Unit, x: Var, y: Var, s: State, t: State, v: u16, depth: nat)
    requires u.Ok() && x in u.lay && y in u.lay && x != y && u.size <= u.bp && s.regs.sp == u.bp - u.size
    requires Stored(s, t, u.bp - u.lay[x], v, depth)
    ensures Read16(t.mem, u.bp - u.lay[y]) == Read16(s.mem, u.bp - u.lay[y])
  {
    var b := u.bp - u.lay[y];
    assert u.lay[y] != u.lay[x];
    hide Separate;
    assert t.mem[b] == s.mem[b] && t.mem[b + 1] == s.mem[b + 1];
  }

  /** A store to one local changes that variable and no other, and nothing above the frame. */
  lemma EncodesStore(u: Unit, w: Store, x: Var, v: u16, s: State, t: State, depth: nat)
    requires InFrame(u, s, w) && x in u.lay
    requires Stored(s, t, u.bp - u.lay[x], v, depth)
    ensures InFrame(u, t, w[x := v]) && SameAbove(s.mem, t.mem, u.bp)
  {
    hide Separate;
    var w' := w[x := v];
    forall y | y in w'
      ensures y in u.lay && 2 <= u.lay[y] <= u.bp && Read16(t.mem, u.bp - u.lay[y]) == w'[y]
    {
      if y != x {
        OtherLocal(u, x, y, s, t, v, depth);
      }
    }
  }

  // Single blocks -----------------------------------------------------------------

  /** Register `reg` stored to a local. */
  lemma StoreVarRuns(u: Unit, reg: GprIndex, x: Var, s: State, w: Store) returns (t: State)
    requires InFrame(u, s, w) && x in u.lay && reg != R4
    requires Room(s, |EmitStore(u.o, u.lay, reg, R4, PlainPlace(x))|)
    ensures Runs(u.names, EmitStore(u.o, u.lay, reg, R4, PlainPlace(x)), s, t, u.img.lim)
    ensures InFrame(u, t, w[x := s.regs.g[reg]]) && SameAbove(s.mem, t.mem, u.bp)
    ensures forall i :: 0 <= i < 8 && i != 4 && i != 6 ==> t.regs.g[i] == s.regs.g[i]
  {
    hide Exec, RunSeq;
    var c := CtxOf(u.lay, u.names, s);
    assert PlaceAddr(PlainPlace(x), c) == u.bp - u.lay[x];
    t := StoreCorrect(u.o, u.lay, u.names, reg, PlainPlace(x), s, u.img.lim);
    EncodesStore(u, w, x, s.regs.g[reg], s, t, 0);
  }

  /** An integer value evaluated into a register. */
  lemma ValueRuns(u: Unit, reg: GprIndex, v: Value, s: State, w: Store) returns (t: State)
    requires InFrame(u, s, w) && AEval(v, w).Some? && reg != R4 && 2 * Depth(v) <= u.Free()
    requires Room(s, |EmitValue(u.o, u.lay, reg, v)|)
    ensures Runs(u.names, EmitValue(u.o, u.lay, reg, v), s, t, u.img.lim)
    ensures InFrame(u, t, w) && SameAbove(s.mem, t.mem, u.bp) && t.regs.g[reg] == AEval(v, w).value
  {
    hide Exec, RunSeq, EmitValue;
    IntEval(u, v, s, w, s.regs.sp - 2 * Depth(v));
    IntSound(u.o, reg, v, w);
    t := ExprCorrect(u.o, u.lay, u.names, reg, v, s, u.img.lim);
    EncodesBelow(u, w, s.mem, t.mem, s.regs.sp - 2 * Depth(v));
  }

  lemma StoreBlock(u: Unit, x: Var, v: Value, k: nat, s: State, w: Store) returns (t: State)
    requires At(u, [StoreB(PlainPlace(x), v)], k) && Stands(s, k)
    requires InFrame(u, s, w) && AEval(v, w).Some? && x in u.lay && 2 * Depth(v) <= u.Free()
    ensures Goes(u, s, t, [EvStore(AEval(v, w).value)]) && Stands(t, k + Size(u, [StoreB(PlainPlace(x), v)]))
    ensures InFrame(u, t, w[x := AEval(v, w).value]) && SameAbove(s.mem, t.mem, u.bp)
  {
    hide Exec, RunSeq, EmitValue, EmitStore, Loaded, At, Size, Goes;
    var b := StoreB(PlainPlace(x), v);
    BlockRoom(u, b, k, s);
    var A, B := EmitValue(u.o, u.lay, R5, v), EmitStore(u.o, u.lay, R5, R4, PlainPlace(x));
    var s1 := ValueRuns(u, R5, v, s, w);
    RunsIp(u.names, A, s, s1, u.img.lim);
    t := StoreVarRuns(u, R5, x, s1, w);
    RunsThen(u.names, A, B, s, s1, t, u.img.lim);
    BlockGoes(u, b, k, s, t);
  }

  lemma StoreResultBlock(u: Unit, x: Var, k: nat, s: State, w: Store) returns (t: State)
    requires At(u, [StoreResult(x)], k) && Stands(s, k)
    requires InFrame(u, s, w) && x in u.lay
    ensures Goes(u, s, t, [EvStore(s.regs.g[0])]) && Stands(t, k + Size(u, [StoreResult(x)]))
    ensures InFrame(u, t, w[x := s.regs.g[0]]) && SameAbove(s.mem, t.mem, u.bp)
  {
    hide Exec, RunSeq, EmitStore, Loaded, At, Size, Goes;
    BlockRoom(u, StoreResult(x), k, s);
    t := StoreVarRuns(u, 0, x, s, w);
    BlockGoes(u, StoreResult(x), k, s, t);
  }

  lemma StoreReturnBlock(u: Unit, v: Value, k: nat, s: State, w: Store) returns (t: State)
    requires At(u, [StoreReturn(v)], k) && Stands(s, k)
    requires InFrame(u, s, w) && AEval(v, w).Some? && 2 * Depth(v) <= u.Free()
    ensures Goes(u, s, t, [EvReturn(AEval(v, w).value)]) && Stands(t, k + Size(u, [StoreReturn(v)]))
    ensures InFrame(u, t, w) && SameAbove(s.mem, t.mem, u.bp) && t.regs.g[0] == AEval(v, w).value
  {
    hide Exec, RunSeq, EmitValue, Loaded, At, Size, Goes;
    BlockRoom(u, StoreReturn(v), k, s);
    t := ValueRuns(u, 0, v, s, w);
    BlockGoes(u, StoreReturn(v), k, s, t);
  }

  lemma CmpBlock(u: Unit, l: Value, r: Value, k: nat, s: State, w: Store) returns (t: State)
    requires At(u, [CmpB(l, r)], k) && Stands(s, k)
    requires InFrame(u, s, w) && AEval(l, w).Some? && AEval(r, w).Some?
    requires 2 * Depth(l) <= u.Free() && 2 * Depth(r) <= u.Free()
    ensures Goes(u, s, t, []) && Stands(t, k + Size(u, [CmpB(l, r)]))
    ensures InFrame(u, t, w) && SameAbove(s.mem, t.mem, u.bp)
    ensures t.regs.cf == (AEval(l, w) == AEval(r, w))
  {
    hide Exec, RunSeq, EmitCmp, Loaded, At, Size, Goes;
    BlockRoom(u, CmpB(l, r), k, s);
    var d := 2 * Max(Depth(l), Depth(r));
    IntEval(u, l, s, w, s.regs.sp - d);
    IntEval(u, r, s, w, s.regs.sp - d);
    IntSound(u.o, R5, l, w);
    IntSound(u.o, R6, r, w);
    t := CmpCorrect(u.o, u.lay, u.names, l, r, s, u.img.lim);
    EncodesBelow(u, w, s.mem, t.mem, s.regs.sp - d);
    BlockGoes(u, CmpB(l, r), k, s, t);
  }
}
