/**
 Which source programs compile to code whose immediates the assembler encodes exactly:
 literals and folded constants of 16 bits, frames below 64 KiB.
 */
module Literals {
  import opened Words
  import opened Machine
  import opened Images
  import opened Encoding
  import opened Assembly
  import opened Values
  import opened Emit
  import opened Frames
  import opened Nodes
  import opened Compile
  import opened FuncCode
  import opened Checks
  import opened SimBase
  import opened Simulation
  import opened Toolchain

  predicate Fits16(n: int) {
    0 <= n <= 0xffff
  }

  /** Literals fit 16 bits, and so does every constant that gets folded. */
  predicate FitsE(o: Options, e: Expr)
    decreases e, 1
  {
    match e
    case Num(n) => Fits16(n)
    case Name(_) => true
    case Bin(op, l, r) =>
      FitsE(o, l) && FitsE(o, r) &&
      (o.foldConstants && l.Num? && r.Num? ==> Fits16(BinArith(op, l.n, r.n)))
    case CallE(f, args) => f != "" && FitsArgs(o, args)
  }

  predicate FitsArgs(o: Options, args: seq<Expr>)
    decreases args, 0
  {
    args == [] || (FitsE(o, args[0]) && FitsArgs(o, args[1..]))
  }

  predicate FitsS(o: Options, st: Stmt)
    decreases st, 1
  {
    match st
    case Decl(_) => true
    case Assign(_, e) => FitsE(o, e)
    case If(_, l, r, body) => FitsE(o, l) && FitsE(o, r) && FitsSs(o, body)
    case For(_, from, to, body) => FitsE(o, from) && FitsE(o, to) && FitsSs(o, body)
    case Return(None) => true
    case Return(Some(e)) => FitsE(o, e)
    case CallS(f, args) => f != "" && FitsArgs(o, args)
  }

  predicate FitsSs(o: Options, ss: seq<Stmt>)
    decreases ss, 0
  {
    ss == [] || (FitsS(o, ss[0]) && FitsSs(o, ss[1..]))
  }

  predicate FitsFunc(o: Options, f: Func) {
    FitsSs(o, f.body) && 2 * |FuncLocals(f)| <= 0xffff
  }

  // Code ---------------------------------------------------------------------------

  /** The instructions the emitter prints. */
  predicate HasForm(i: Instr) {
    match i
    case Push(_) => true
    case Pop(_) => true
    case Two(_, _, _) => true
    case Load(_, SReg(_)) => true
    case Store(_, SReg(_)) => true
    case Jmp(SSym(_)) => true
    case Jeq(SSym(_)) => true
    case Call(SSym(_)) => true
    case Cfs => true
    case Ret => true
    case _ => false
  }

  predicate ExactIns(i: Instr) {
    Exact(i) && HasForm(i) && (Symbolic(i) ==> i.src.name != "")
  }

  /** The assembler has a form for every such instruction. */
  lemma FormEncodes(i: Instr)
    requires ExactIns(i)
    ensures Encode(i, map[]).Some?
  {
    hide TwoCode, RegByte, LoByte, HiByte;
  }

  predicate ExactCode(code: seq<Instr>) {
    forall i :: 0 <= i < |code| ==> ExactIns(code[i])
  }

  predicate LayFits(lay: Layout) {
    forall x :: x in lay ==> Fits16(lay[x])
  }

  /** Every immediate in the code of the value fits: literals, folded constants, element
      sizes, and the distances from bp. */
  predicate FitsV(o: Options, lay: Layout, v: Value) {
    match v
    case Imm(n) => Fits16(n)
    case Local(x, offset, deref, _) =>
      if deref then Fits16(Off(lay, x)) && Fits16(offset) else Fits16(Off(lay, x) - offset)
    case Global(_, _) | Str(_) => true
    case Op(op, l, r) =>
      FitsV(o, lay, l) && FitsV(o, lay, r) && (Folds(o, l, r) ==> Fits16(BinArith(op, l.n, r.n)))
    case AddrOf(x) => Fits16(Off(lay, x))
    case Index(b, i, n, _) => FitsV(o, lay, b) && FitsV(o, lay, i) && Fits16(n)
  }

  /** The same for a store's place. */
  predicate FitsP(o: Options, lay: Layout, p: Place) {
    match p
    case PGlobal(_) => true
    case PVar(x, offset) => Fits16(Off(lay, x) - offset)
    case PArray(x, offset, n, index) => Fits16(Off(lay, x) - offset) && Fits16(n) && FitsV(o, lay, index)
    case PPointer(x, offset, n, index) => Fits16(Off(lay, x) - offset) && Fits16(n) && FitsV(o, lay, index)
  }

  lemma {:induction false} ConvFits(o: Options, lay: Layout, e: Expr, vi: nat)
    requires FitsE(o, e) && LayFits(lay)
    ensures FitsV(o, lay, ConvValue(e, vi)) && (ConvValue(e, vi).Imm? <==> e.Num?)
    ensures e.Num? ==> ConvValue(e, vi).n == e.n
  {
    if e.Bin? {
      ConvFits(o, lay, e.left, vi);
      ConvFits(o, lay, e.right, vi + Temps(e.left));
    }
  }

  lemma ExactConcat(a: seq<Instr>, b: seq<Instr>)
    requires ExactCode(a) && ExactCode(b)
    ensures ExactCode(a + b)
  {
    hide ExactIns;
  }

  lemma ExactAddr(o: Options, lay: Layout, reg: GprIndex, v: Value)
    requires FitsV(o, lay, v)
    ensures ExactCode(EmitAddr(lay, reg, v))
  {
    hide EmitValue;
    if v.Local? && v.deref {
      ExactOne(SubImm(R(R4), Off(lay, v.x)));
      ExactOne(Two(ADD, R(reg), SImm(v.offset)));
    } else if v.Local? {
      ExactOne(SubImm(R(reg), Off(lay, v.x) - v.offset));
    }
  }

  lemma ExactFetched(reg: GprIndex, decay: bool)
    ensures ExactCode([Fetched(reg, decay)])
  {
  }

  lemma {:induction false} ExactValue(o: Options, lay: Layout, reg: GprIndex, v: Value)
    requires FitsV(o, lay, v)
    ensures ExactCode(EmitValue(o, lay, reg, v))
    decreases v
  {
    hide ExactCode;
    match v
    case Imm(n) => ExactMov(reg, n);
    case Local(_, _, _, decay) =>
      ExactAddr(o, lay, R4, v);
      ExactFetched(reg, decay);
      ExactConcat(EmitAddr(lay, R4, v), [Fetched(reg, decay)]);
    case Global(_, decay) =>
      ExactAddr(o, lay, R4, v);
      ExactFetched(reg, decay);
      ExactConcat(EmitAddr(lay, R4, v), [Fetched(reg, decay)]);
    case Str(id) => ExactSymbol(reg, StringSym(id));
    case AddrOf(x) => ExactDistance(reg, Off(lay, x));
    case Op(op, l, r) =>
      if Folds(o, l, r) {
        ExactMov(reg, BinArith(op, l.n, r.n));
      } else {
        ExactValue(o, lay, reg, l);
        ExactValue(o, lay, reg, r);
        ExactOp(op, reg);
        var tail := [Pop(R(R4)), Two(OpCode(op), R(reg), SReg(R(R4)))];
        ExactConcat(EmitValue(o, lay, reg, r), [Push(R(reg))]);
        ExactConcat(EmitValue(o, lay, reg, l), tail);
        ExactConcat(EmitValue(o, lay, reg, r) + [Push(R(reg))], EmitValue(o, lay, reg, l) + tail);
      }
    case Index(b, i, n, viaPointer) =>
      ExactValue(o, lay, R6, i);
      ExactValue(o, lay, R4, b);
      ExactAddr(o, lay, R4, b);
      ExactScale(R6, n);
      ExactRead(reg, n);
      var read := [AddReg(R(R4), R(R6)), Load(R(reg), SReg(R(R4)))] +
                  (if n == 1 then [Two(AND, R(reg), SImm(0xff))] else []);
      ExactConcat(EmitValue(o, lay, R6, i), [Two(MUL, R(R6), SImm(n))]);
      ExactConcat(EmitBase(o, lay, v), read);
      ExactConcat(EmitValue(o, lay, R6, i) + [Two(MUL, R(R6), SImm(n))], EmitBase(o, lay, v) + read);
  }

  lemma ExactMov(reg: GprIndex, n: int)
    requires Fits16(n)
    ensures ExactCode([MovImm(R(reg), n)])
  {
  }

  lemma ExactSymbol(reg: GprIndex, name: string)
    requires name != ""
    ensures ExactCode([MovSym(R(reg), name)])
  {
  }

  lemma ExactDistance(reg: GprIndex, d: int)
    requires Fits16(d)
    ensures ExactCode([MovReg(R(reg), BP), SubImm(R(reg), d)])
  {
  }

  lemma ExactScale(reg: GprIndex, n: int)
    requires Fits16(n)
    ensures ExactCode([Two(MUL, R(reg), SImm(n))])
  {
  }

  lemma ExactRead(reg: GprIndex, n: int)
    ensures ExactCode([AddReg(R(R4), R(R6)), Load(R(reg), SReg(R(R4)))] +
                      (if n == 1 then [Two(AND, R(reg), SImm(0xff))] else []))
  {
  }

  lemma ExactOp(op: BinOp, reg: GprIndex)
    ensures ExactCode([Push(R(reg))])
    ensures ExactCode([Pop(R(R4)), Two(OpCode(op), R(reg), SReg(R(R4)))])
  {
  }

  lemma ExactStore(o: Options, lay: Layout, reg: GprIndex, p: Place)
    requires FitsP(o, lay, p)
    ensures ExactCode(EmitStore(o, lay, reg, R4, p))
  {
    hide ExactCode;
    match p
    case PArray(x, offset, n, index) =>
      ExactValue(o, lay, R4, index);
      ExactElement(reg, n, Off(lay, x) - offset);
      ExactConcat(EmitValue(o, lay, R4, index),
                  [Two(MUL, R(R4), SImm(n)), AddReg(R(R4), BP), SubImm(R(R4), Off(lay, x) - offset), Store(R(reg), SReg(R(R4)))]);
    case PPointer(x, offset, n, index) =>
      ExactValue(o, lay, reg, index);
      ExactBehind(reg, n, Off(lay, x) - offset);
      var tail := [Two(MUL, R(reg), SImm(n)), MovReg(R(R4), BP), SubImm(R(R4), Off(lay, x) - offset),
                   Load(R(R4), SReg(R(R4))), AddReg(R(R4), R(reg)), Pop(R(reg)), Store(R(reg), SReg(R(R4)))];
      ExactConcat(EmitValue(o, lay, reg, index), tail);
      ExactConcat([Push(R(reg))], EmitValue(o, lay, reg, index) + tail);
    case PVar(x, offset) => ExactDirect(reg, "_", Off(lay, x) - offset);
    case PGlobal(name) => ExactDirect(reg, GlobalSym(name), 0);
  }

  lemma ExactDirect(reg: GprIndex, name: string, d: int)
    requires Fits16(d) && name != ""
    ensures ExactCode([MovReg(R(R4), BP), SubImm(R(R4), d), Store(R(reg), SReg(R(R4)))])
    ensures ExactCode([MovSym(R(R4), name), Store(R(reg), SReg(R(R4)))])
  {
  }

  lemma ExactElement(reg: GprIndex, n: int, d: int)
    requires Fits16(n) && Fits16(d)
    ensures ExactCode([Two(MUL, R(R4), SImm(n)), AddReg(R(R4), BP), SubImm(R(R4), d), Store(R(reg), SReg(R(R4)))])
  {
  }

  lemma ExactBehind(reg: GprIndex, n: int, d: int)
    requires Fits16(n) && Fits16(d)
    ensures ExactCode([Push(R(reg))])
    ensures ExactCode([Two(MUL, R(reg), SImm(n)), MovReg(R(R4), BP), SubImm(R(R4), d), Load(R(R4), SReg(R(R4))),
                       AddReg(R(R4), R(reg)), Pop(R(reg)), Store(R(reg), SReg(R(R4)))])
  {
  }

  lemma {:induction false} ExactArgs(o: Options, lay: Layout, args: seq<Value>)
    requires forall i :: 0 <= i < |args| ==> FitsV(o, lay, args[i])
    ensures ExactCode(EmitArgs(o, lay, args))
    decreases |args|
  {
    hide ExactIns, EmitValue, FitsV;
    if args != [] {
      var n := |args| - 1;
      ExactArgs(o, lay, args[..n]);
      ExactValue(o, lay, ArgReg(n), args[n]);
      ExactConcat(EmitArgs(o, lay, args[..n]), EmitValue(o, lay, ArgReg(n), args[n]));
    }
  }

  // Blocks -------------------------------------------------------------------------

  predicate FitsB(o: Options, lay: Layout, b: Block) {
    match b
    case LocalB(slot) => Fits16(slot.size)
    case StoreB(place, v) => FitsP(o, lay, place) && FitsV(o, lay, v)
    case StoreResult(x) => Fits16(Off(lay, x))
    case StoreArg(x, _) => Fits16(Off(lay, x))
    case StoreReturn(v) => FitsV(o, lay, v)
    case CallB(f, args) => f != "" && forall i :: 0 <= i < |args| ==> FitsV(o, lay, args[i])
    case CmpB(l, r) => FitsV(o, lay, l) && FitsV(o, lay, r)
    case _ => true
  }

  predicate FitsBs(o: Options, lay: Layout, bs: seq<Block>) {
    forall i :: 0 <= i < |bs| ==> FitsB(o, lay, bs[i])
  }

  lemma FitsConcat(o: Options, lay: Layout, a: seq<Block>, b: seq<Block>)
    requires FitsBs(o, lay, a) && FitsBs(o, lay, b)
    ensures FitsBs(o, lay, a + b)
  {
    hide FitsB;
  }

  lemma ExactCmp(o: Options, lay: Layout, l: Value, r: Value)
    requires FitsV(o, lay, l) && FitsV(o, lay, r)
    ensures ExactCode(EmitCmp(o, lay, l, r))
  {
    hide EmitValue;
    ExactValue(o, lay, R5, l);
    ExactValue(o, lay, R6, r);
  }

  lemma ExactOne(i: Instr)
    requires ExactIns(i)
    ensures ExactCode([i])
  {
    hide ExactIns;
  }

  lemma ExactStack(r: Reg)
    ensures ExactIns(Push(r)) && ExactIns(Pop(r)) && ExactIns(MovReg(BP, r)) && ExactIns(MovReg(SP, r))
  {
  }

  lemma ExactSix(a: Instr, b: Instr, c: Instr, d: Instr, e: Instr, f: Instr)
    requires ExactIns(a) && ExactIns(b) && ExactIns(c) && ExactIns(d) && ExactIns(e) && ExactIns(f)
    ensures ExactCode([a, b, c, d, e, f])
  {
    hide ExactIns;
  }

  lemma ExactFrame()
    ensures ExactCode(PreambleCode()) && ExactCode(EpilogueCode())
  {
    hide ExactIns, ExactCode;
    ExactStack(BP);
    ExactStack(SP);
    ExactStack(R(4));
    ExactStack(R(5));
    ExactStack(R(6));
    ExactStack(R(7));
    ExactSix(Push(BP), Push(R(4)), Push(R(5)), Push(R(6)), Push(R(7)), MovReg(BP, SP));
    ExactSix(MovReg(SP, BP), Pop(R(7)), Pop(R(6)), Pop(R(5)), Pop(R(4)), Pop(BP));
  }

  lemma ExactJump(kind: JmpKind, dest: string)
    ensures ExactCode(JmpCode(kind, dest))
  {
    assert ExactIns(Cfs) && ExactIns(Jmp(SSym("@" + dest))) && ExactIns(Jeq(SSym("@" + dest)));
  }

  lemma ExactFixed(kind: JmpKind, dest: string, f: string, size: nat)
    requires f != "" && Fits16(size)
    ensures ExactCode(PreambleCode()) && ExactCode(EpilogueCode()) && ExactCode(JmpCode(kind, dest))
    ensures ExactCode([Call(SSym(f))]) && ExactCode([SubImm(SP, size)]) && ExactCode([Ret])
  {
    hide ExactCode, PreambleCode, EpilogueCode, JmpCode;
    ExactFrame();
    ExactJump(kind, dest);
    ExactOne(Call(SSym(f)));
    ExactOne(SubImm(SP, size));
    ExactOne(Ret);
  }

  lemma ExactBlock(o: Options, lay: Layout, b: Block)
    requires FitsB(o, lay, b)
    ensures ExactCode(BlockCode(o, lay, b))
  {
    hide ExactCode, EmitValue, EmitStore, EmitArgs, EmitCmp, FitsV, PreambleCode, EpilogueCode, JmpCode;
    match b
    case StoreB(place, v) =>
      ExactValue(o, lay, R5, v);
      ExactStore(o, lay, R5, place);
      ExactConcat(EmitValue(o, lay, R5, v), EmitStore(o, lay, R5, R4, place));
    case StoreReturn(v) => ExactValue(o, lay, 0, v);
    case StoreResult(x) => ExactStore(o, lay, 0, PlainPlace(x));
    case StoreArg(x, i) => ExactStore(o, lay, ArgReg(i), PlainPlace(x));
    case CallB(f, args) =>
      ExactArgs(o, lay, args);
      ExactFixed(Always, "", f, 0);
      ExactConcat(EmitArgs(o, lay, args), [Call(SSym(f))]);
    case CmpB(l, r) => ExactCmp(o, lay, l, r);
    case LocalB(slot) => ExactFixed(Always, "", "f", slot.size);
    case JmpB(kind, dest) => ExactFixed(kind, dest, "f", 0);
    case LabelB(_) => ExactNone();
    case _ => ExactFixed(Always, "", "f", 0);
  }

  lemma ExactNone()
    ensures ExactCode([])
  {
  }

  predicate ExactLines(code: seq<Line>) {
    forall i :: 0 <= i < |code| ==> code[i].Ins? ==> ExactIns(code[i].i)
  }

  lemma {:induction false} ExactBlocks(o: Options, lay: Layout, bs: seq<Block>)
    requires FitsBs(o, lay, bs)
    ensures ExactLines(EmitBlocks(o, lay, bs))
  {
    hide ExactIns, BlockCode, FitsB;
    if bs != [] {
      ExactBlock(o, lay, bs[0]);
      ExactBlocks(o, lay, bs[1..]);
      assert ExactLines(EmitBlock(o, lay, bs[0]));
    }
  }

  // Statements ----------------------------------------------------------------------

  lemma {:induction false} ArgsFit(o: Options, lay: Layout, args: seq<Expr>, vi: nat)
    requires FitsArgs(o, args) && LayFits(lay)
    ensures forall i :: 0 <= i < |args| ==> FitsV(o, lay, ConvArgs(args, vi)[i])
  {
    hide FitsV, FitsE, ConvValue;
    if args != [] {
      ConvFits(o, lay, args[0], vi);
      ArgsFit(o, lay, args[1..], vi + Temps(args[0]));
    }
  }

  lemma {:induction false} ConvBlocksFit(o: Options, lay: Layout, e: Expr, vi: nat)
    requires FitsE(o, e) && LayFits(lay)
    ensures FitsBs(o, lay, ConvBlocks(e, vi))
    decreases e, 1
  {
    hide FitsBs, ConvValue, ConvArgs;
    match e
    case Bin(_, l, r) =>
      ConvBlocksFit(o, lay, l, vi);
      ConvBlocksFit(o, lay, r, vi + Temps(l));
      FitsConcat(o, lay, ConvBlocks(l, vi), ConvBlocks(r, vi + Temps(l)));
    case CallE(f, args) =>
      ConvArgsFit(o, lay, args, vi + 1);
      CallFits(o, lay, f, args, vi + 1);
      TwoFit(o, lay, CallB(f, ConvArgs(args, vi + 1)), StoreResult(Temp(vi)));
      FitsConcat(o, lay, ConvArgsBlocks(args, vi + 1), [CallB(f, ConvArgs(args, vi + 1)), StoreResult(Temp(vi))]);
    case _ => NoneFit(o, lay);
  }

  lemma NoneFit(o: Options, lay: Layout)
    ensures FitsBs(o, lay, [])
  {
  }

  lemma OneFit(o: Options, lay: Layout, a: Block)
    requires FitsB(o, lay, a)
    ensures FitsBs(o, lay, [a])
  {
  }

  lemma TwoFit(o: Options, lay: Layout, a: Block, b: Block)
    requires FitsB(o, lay, a) && FitsB(o, lay, b)
    ensures FitsBs(o, lay, [a, b])
  {
  }

  lemma CallFits(o: Options, lay: Layout, f: string, args: seq<Expr>, vi: nat)
    requires f != "" && FitsArgs(o, args) && LayFits(lay)
    ensures FitsB(o, lay, CallB(f, ConvArgs(args, vi)))
  {
    ArgsFit(o, lay, args, vi);
  }

  lemma {:induction false} ConvArgsFit(o: Options, lay: Layout, args: seq<Expr>, vi: nat)
    requires FitsArgs(o, args) && LayFits(lay)
    ensures FitsBs(o, lay, ConvArgsBlocks(args, vi))
    decreases args, 0
  {
    hide FitsBs, FitsE, ConvBlocks;
    if args == [] {
      NoneFit(o, lay);
    } else {
      ConvBlocksFit(o, lay, args[0], vi);
      ConvArgsFit(o, lay, args[1..], vi + Temps(args[0]));
      FitsConcat(o, lay, ConvBlocks(args[0], vi), ConvArgsBlocks(args[1..], vi + Temps(args[0])));
    }
  }

  lemma HeadFits(o: Options, lay: Layout, x: string, from: Expr, vi: nat, li: nat)
    requires FitsE(o, from) && LayFits(lay)
    ensures FitsBs(o, lay, ForHead(x, from, vi, li))
  {
    hide FitsBs, ConvBlocks, FitsE, ConvValue;
    var s := StoreB(PlainPlace(User(x)), ConvValue(from, vi));
    ConvFits(o, lay, from, vi);
    ConvBlocksFit(o, lay, from, vi);
    OneFit(o, lay, s);
    OneFit(o, lay, LabelB(LLabel(li)));
    FitsConcat(o, lay, [s], ConvBlocks(from, vi));
    FitsConcat(o, lay, [s] + ConvBlocks(from, vi), [LabelB(LLabel(li))]);
  }

  lemma TailFits(o: Options, lay: Layout, x: string, to: Expr, vi: nat, li: nat, end: nat)
    requires FitsE(o, to) && LayFits(lay)
    ensures FitsBs(o, lay, ForTail(x, to, vi, li, end))
  {
    hide FitsBs, ConvBlocks, FitsE, ConvValue;
    var s := StoreB(PlainPlace(User(x)), Op(OpAdd, LocalValue(User(x)), Imm(1)));
    var c := CmpB(LocalValue(User(x)), ConvValue(to, vi));
    var j := [JmpB(Eq, ELabel(end)), JmpB(Always, LLabel(li)), LabelB(ELabel(end))];
    ConvFits(o, lay, to, vi);
    ConvBlocksFit(o, lay, to, vi);
    TwoFit(o, lay, s, c);
    TwoFit(o, lay, JmpB(Eq, ELabel(end)), JmpB(Always, LLabel(li)));
    OneFit(o, lay, LabelB(ELabel(end)));
    FitsConcat(o, lay, [JmpB(Eq, ELabel(end)), JmpB(Always, LLabel(li))], [LabelB(ELabel(end))]);
    assert j == [JmpB(Eq, ELabel(end)), JmpB(Always, LLabel(li))] + [LabelB(ELabel(end))];
    FitsConcat(o, lay, [s, c], ConvBlocks(to, vi));
    FitsConcat(o, lay, [s, c] + ConvBlocks(to, vi), j);
  }

  lemma CondFits(o: Options, lay: Layout, st: Stmt, vi: nat, li: nat)
    requires st.If? && FitsE(o, st.left) && FitsE(o, st.right) && LayFits(lay)
    ensures var vr := vi + Temps(st.left);
            FitsBs(o, lay, ConvBlocks(st.left, vi) + ConvBlocks(st.right, vr)) &&
            FitsBs(o, lay, [CmpB(ConvValue(st.left, vi), ConvValue(st.right, vr)),
                       JmpB(if st.equal then Eq else Neq, LLabel(li)), JmpB(Always, LLabel(li + 1)), LabelB(LLabel(li))])
  {
    hide FitsBs, ConvBlocks, FitsE, ConvValue;
    var vr := vi + Temps(st.left);
    var c, j := CmpB(ConvValue(st.left, vi), ConvValue(st.right, vr)), JmpB(if st.equal then Eq else Neq, LLabel(li));
    ConvFits(o, lay, st.left, vi);
    ConvFits(o, lay, st.right, vr);
    ConvBlocksFit(o, lay, st.left, vi);
    ConvBlocksFit(o, lay, st.right, vr);
    FitsConcat(o, lay, ConvBlocks(st.left, vi), ConvBlocks(st.right, vr));
    TwoFit(o, lay, c, j);
    TwoFit(o, lay, JmpB(Always, LLabel(li + 1)), LabelB(LLabel(li)));
    FitsConcat(o, lay, [c, j], [JmpB(Always, LLabel(li + 1)), LabelB(LLabel(li))]);
    assert [c, j] + [JmpB(Always, LLabel(li + 1)), LabelB(LLabel(li))]
        == [c, j, JmpB(Always, LLabel(li + 1)), LabelB(LLabel(li))];
  }

  lemma {:induction false} StmtFits(o: Options, lay: Layout, st: Stmt, vi: nat, li: nat)
    requires FitsS(o, st) && LayFits(lay)
    ensures FitsBs(o, lay, StmtBlocks(st, vi, li))
    decreases st, 1
  {
    hide FitsBs, ConvBlocks, ConvArgsBlocks, ConvArgs, FitsE, FitsArgs, ConvValue, StmtsBlocks, ForHead, ForTail;
    match st
    case Decl(_) => NoneFit(o, lay);
    case Assign(x, e) =>
      ConvFits(o, lay, e, vi);
      ConvBlocksFit(o, lay, e, vi);
      OneFit(o, lay, StoreB(PlainPlace(User(x)), ConvValue(e, vi)));
      FitsConcat(o, lay, ConvBlocks(e, vi), [StoreB(PlainPlace(User(x)), ConvValue(e, vi))]);
    case If(equal, l, r, body) =>
      var vr := vi + Temps(l);
      var S := StmtsBlocks(body, vr + Temps(r), li + 2);
      var c := [CmpB(ConvValue(l, vi), ConvValue(r, vr)), JmpB(if equal then Eq else Neq, LLabel(li)),
                JmpB(Always, LLabel(li + 1)), LabelB(LLabel(li))];
      CondFits(o, lay, st, vi, li);
      StmtsFit(o, lay, body, vr + Temps(r), li + 2);
      OneFit(o, lay, LabelB(LLabel(li + 1)));
      FitsConcat(o, lay, S, [LabelB(LLabel(li + 1))]);
      FitsConcat(o, lay, c, S + [LabelB(LLabel(li + 1))]);
      FitsConcat(o, lay, ConvBlocks(l, vi) + ConvBlocks(r, vr), c + (S + [LabelB(LLabel(li + 1))]));
    case For(x, from, to, body) =>
      var vb := vi + Temps(from);
      var vt, end := vb + TempsSs(body), li + 1 + LabelsSs(body);
      HeadFits(o, lay, x, from, vi, li);
      StmtsFit(o, lay, body, vb, li + 1);
      TailFits(o, lay, x, to, vt, li, end);
      FitsConcat(o, lay, StmtsBlocks(body, vb, li + 1), ForTail(x, to, vt, li, end));
      FitsConcat(o, lay, ForHead(x, from, vi, li), StmtsBlocks(body, vb, li + 1) + ForTail(x, to, vt, li, end));
    case Return(None) => OneFit(o, lay, JmpB(Always, EXIT));
    case Return(Some(e)) =>
      ConvFits(o, lay, e, vi);
      ConvBlocksFit(o, lay, e, vi);
      TwoFit(o, lay, StoreReturn(ConvValue(e, vi)), JmpB(Always, EXIT));
      FitsConcat(o, lay, ConvBlocks(e, vi), [StoreReturn(ConvValue(e, vi)), JmpB(Always, EXIT)]);
    case CallS(f, args) =>
      ConvArgsFit(o, lay, args, vi);
      CallFits(o, lay, f, args, vi);
      OneFit(o, lay, CallB(f, ConvArgs(args, vi)));
      FitsConcat(o, lay, ConvArgsBlocks(args, vi), [CallB(f, ConvArgs(args, vi))]);
  }

  lemma {:induction false} StmtsFit(o: Options, lay: Layout, ss: seq<Stmt>, vi: nat, li: nat)
    requires FitsSs(o, ss) && LayFits(lay)
    ensures FitsBs(o, lay, StmtsBlocks(ss, vi, li))
    decreases ss, 0
  {
    hide FitsBs, StmtBlocks, FitsS;
    if ss == [] {
      NoneFit(o, lay);
    } else {
      StmtFits(o, lay, ss[0], vi, li);
      StmtsFit(o, lay, ss[1..], vi + TempsS(ss[0]), li + Labels(ss[0]));
      FitsConcat(o, lay, StmtBlocks(ss[0], vi, li), StmtsBlocks(ss[1..], vi + TempsS(ss[0]), li + Labels(ss[0])));
    }
  }

  // Programs ------------------------------------------------------------------------

  lemma {:induction false} LocalsFit(o: Options, lay: Layout, slots: seq<Slot>)
    requires forall i :: 0 <= i < |slots| ==> slots[i].size == 2
    ensures FitsBs(o, lay, LocalBlocks(slots))
  {
    if slots != [] {
      LocalsFit(o, lay, slots[1..]);
    }
  }

  lemma FuncFits(o: Options, f: Func)
    requires FitsFunc(o, f) && GoodFunc(f)
    ensures ExactLines(FuncLines(o, f))
  {
    hide FitsBs, StmtsBlocks, LocalBlocks, ArgBlocks, FuncSlots, ExactLines, EmitBlocks, FuncLayout, FitsSs;
    var lay := FuncLayout(f);
    var L, A, S := LocalBlocks(FuncSlots(f)), ArgBlocks(f.params), StmtsBlocks(f.body, 0, 0);
    LayoutGood(f);
    StmtsFit(o, lay, f.body, 0, 0);
    SlotsFit(o, lay, f);
    TwoFit(o, lay, LabelB(EXIT), Epilogue);
    OneFit(o, lay, Preamble);
    FitsConcat(o, lay, S, [LabelB(EXIT), Epilogue]);
    FitsConcat(o, lay, A, S + [LabelB(EXIT), Epilogue]);
    FitsConcat(o, lay, L, A + (S + [LabelB(EXIT), Epilogue]));
    FitsConcat(o, lay, [Preamble], L + (A + (S + [LabelB(EXIT), Epilogue])));
    ExactBlocks(o, FuncLayout(f), FuncBlocks(f));
    LinesWithRet(EmitBlocks(o, FuncLayout(f), FuncBlocks(f)));
  }

  lemma SlotsFit(o: Options, lay: Layout, f: Func)
    requires LayFits(lay)
    ensures FitsBs(o, lay, LocalBlocks(FuncSlots(f))) && FitsBs(o, lay, ArgBlocks(f.params))
  {
    LocalsFit(o, lay, FuncSlots(f));
  }

  lemma LinesWithRet(code: seq<Line>)
    requires ExactLines(code)
    ensures ExactLines(code + [Ins(Ret)])
  {
  }

  lemma {:induction false} AsmExact(code: seq<Line>)
    requires ExactLines(code)
    ensures CodeOnly(ToAsm(code))
  {
    hide Exact;
    if code != [] {
      assert ExactLines(code[1..]);
      AsmExact(code[1..]);
    }
  }

  /** Literals that fit make code the bytes hold exactly. */
  lemma {:induction false} ProgramExact(o: Options, p: Program)
    requires GoodProgram(p) && forall f :: f in p ==> FitsFunc(o, f)
    ensures CodeOnly(ProgramAsm(o, p))
    decreases |p|
  {
    hide FuncLines, FitsFunc, GoodFunc, CodeLine;
    if p != [] {
      FuncFits(o, p[0]);
      AsmExact(FuncLines(o, p[0]));
      ProgramExact(o, p[1..]);
      HeaderLines(p[0].name);
      assert CodeOnly(FuncAsm(o, p[0]));
    }
  }

  lemma HeaderLines(name: string)
    ensures CodeLine(AExport(name)) && CodeLine(ALabel(name))
  {
  }

  /** Pure code is tame: every position in it is aligned. */
  lemma {:induction false} CodeTame(lines: seq<AsmLine>, c: Cursor, pending: bool)
    requires CodeOnly(lines) && c.pos % 4 == 0
    ensures Tame(lines, c, pending)
    decreases |lines|
  {
    hide Encode, Exact, NextIns;
    if lines != [] && Advance(c, lines[0]).Some? {
      assert CodeLine(lines[0]);
      var c1 := Advance(c, lines[0]).value;
      CodeTame(lines[1..], c1, lines[0].ALabel? || (pending && c1.pos == c.pos));
    }
  }

  /** A program every part of the tool chain carries through. */
  ghost predicate Compilable(o: Options, p: Program) {
    && GoodProgram(p)
    && (forall f :: f in p ==> FitsFunc(o, f))
    && forall i, j :: 0 <= i < j < |p| ==> p[i].name != p[j].name
  }

  lemma CompilableIsEncodable(o: Options, p: Program)
    requires Compilable(o, p)
    ensures Encodable(o, p) && Tame(ProgramAsm(o, p), START.At(), false)
  {
    hide CodeOnly, Tame, GoodFunc, FitsFunc;
    ProgramExact(o, p);
    CodeTame(ProgramAsm(o, p), START.At(), false);
  }
}
