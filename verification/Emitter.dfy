/**
 The emitter as an object that prints lines and hands out frame offsets as it goes,
 proved against the code functions.
 */
module Emitter {
  import opened Words
  import opened Machine
  import opened Images
  import opened Values
  import opened Emit
  import opened Frames
  import opened Nodes
  import opened Compile
  import opened FuncCode

  // What the walk over the blocks prints ---------------------------------------------

  /** The preamble forgets the locals of the function before; a local block takes the
      next bytes of the frame. */
  function OffsetsAfter(lay: Layout, size: nat, b: Block): (Layout, nat) {
    match b
    case Preamble => (map[], 0)
    case LocalB(slot) => (lay[slot.x := size + slot.size], size + slot.size)
    case _ => (lay, size)
  }

  /** The lines of the blocks when each sees the offsets given out before it. */
  function EmitFrom(o: Options, lay: Layout, size: nat, bs: seq<Block>): seq<Line>
    decreases |bs|
  {
    if bs == [] then []
    else
      var next := OffsetsAfter(lay, size, bs[0]);
      EmitBlock(o, next.0, bs[0]) + EmitFrom(o, next.0, next.1, bs[1..])
  }

  /** The source gives up on a block with a value it cannot take the address of. */
  predicate EmittablePlace(p: Place) {
    p.PArray? || p.PPointer? ==> Emittable(p.index)
  }

  predicate EmittableBlock(b: Block) {
    match b
    case StoreB(place, v) => Emittable(v) && EmittablePlace(place)
    case StoreReturn(v) => Emittable(v)
    case CallB(_, args) => forall i :: 0 <= i < |args| ==> Emittable(args[i])
    case CmpB(l, r) => Emittable(l) && Emittable(r)
    case _ => true
  }

  predicate EmittableBlocks(bs: seq<Block>) {
    forall i :: 0 <= i < |bs| ==> EmittableBlock(bs[i])
  }

  /** Blocks that give out no offsets are printed with the offsets as they are. */
  lemma {:induction false} EmitFromRest(o: Options, lay: Layout, size: nat, bs: seq<Block>)
    requires forall i :: 0 <= i < |bs| ==> !bs[i].Preamble? && !bs[i].LocalB?
    ensures EmitFrom(o, lay, size, bs) == EmitBlocks(o, lay, bs)
    decreases |bs|
  {
    hide EmitBlock;
    if bs != [] {
      EmitFromRest(o, lay, size, bs[1..]);
    }
  }

  /** The local blocks, last local first, give out exactly the layout of the slots; what
      they print does not depend on it. */
  lemma {:induction false} EmitFromLocals(o: Options, lay: Layout, slots: seq<Slot>, rest: seq<Block>)
    ensures EmitFrom(o, map[], 0, LocalBlocks(slots) + rest) ==
            EmitBlocks(o, lay, LocalBlocks(slots)) + EmitFrom(o, LayoutOf(slots), FrameSize(slots), rest)
    decreases |slots|
  {
    hide EmitFrom, EmitBlocks, EmitBlock, LayoutOf, FrameSize;
    if slots == [] {
      assert LocalBlocks(slots) + rest == rest;
      NoLocals(o, lay);
    } else {
      var b := LocalB(slots[0]);
      var L := LocalBlocks(slots[1..]);
      assert LocalBlocks(slots) + rest == L + ([b] + rest);
      EmitFromLocals(o, lay, slots[1..], [b] + rest);
      EmitBlocksAppend(o, lay, L, [b]);
      OneLocal(o, lay, slots, rest);
    }
  }

  lemma NoLocals(o: Options, lay: Layout)
    ensures LayoutOf([]) == map[] && FrameSize([]) == 0 && EmitBlocks(o, lay, []) == []
  {
  }

  lemma OneLocal(o: Options, lay: Layout, slots: seq<Slot>, rest: seq<Block>)
    requires slots != []
    ensures EmitFrom(o, LayoutOf(slots[1..]), FrameSize(slots[1..]), [LocalB(slots[0])] + rest) ==
            EmitBlocks(o, lay, [LocalB(slots[0])]) + EmitFrom(o, LayoutOf(slots), FrameSize(slots), rest)
  {
    hide EmitFrom;
    var b := LocalB(slots[0]);
    EmitFromCons(o, LayoutOf(slots[1..]), FrameSize(slots[1..]), b, rest);
    assert [b][1..] == [];
    assert EmitBlocks(o, lay, [b]) == EmitBlock(o, lay, b) + EmitBlocks(o, lay, []);
  }

  lemma EmitFromCons(o: Options, lay: Layout, size: nat, b: Block, rest: seq<Block>)
    ensures var next := OffsetsAfter(lay, size, b);
            EmitFrom(o, lay, size, [b] + rest) == EmitBlock(o, next.0, b) + EmitFrom(o, next.0, next.1, rest)
  {
    assert ([b] + rest)[1..] == rest;
  }

  lemma {:induction false} ConvPlain(e: Expr, vi: nat, i: nat)
    requires i < |ConvBlocks(e, vi)|
    ensures PlainBlock(ConvBlocks(e, vi)[i])
    decreases e, 1
  {
    match e
    case Bin(_, l, r) =>
      var n := |ConvBlocks(l, vi)|;
      if i < n { ConvPlain(l, vi, i); } else { ConvPlain(r, vi + Temps(l), i - n); }
    case CallE(_, args) =>
      if i < |ConvArgsBlocks(args, vi + 1)| { ConvArgsPlain(args, vi + 1, i); }
      ConvArgsEmittable(args, vi + 1);
    case _ =>
  }

  lemma {:induction false} ConvArgsPlain(args: seq<Expr>, vi: nat, i: nat)
    requires i < |ConvArgsBlocks(args, vi)|
    ensures PlainBlock(ConvArgsBlocks(args, vi)[i])
    decreases args, 0
  {
    if args != [] {
      var n := |ConvBlocks(args[0], vi)|;
      if i < n { ConvPlain(args[0], vi, i); } else { ConvArgsPlain(args[1..], vi + Temps(args[0]), i - n); }
    }
  }

  /** A block that hands out no offsets and is emittable. */
  predicate PlainBlock(b: Block) {
    !b.Preamble? && !b.LocalB? && EmittableBlock(b)
  }

  lemma {:induction false} ConvEmittable(e: Expr, vi: nat)
    ensures Emittable(ConvValue(e, vi))
  {
    match e
    case Bin(_, l, r) =>
      ConvEmittable(l, vi);
      ConvEmittable(r, vi + Temps(l));
    case _ =>
  }

  lemma {:induction false} ConvArgsEmittable(args: seq<Expr>, vi: nat)
    ensures forall i :: 0 <= i < |args| ==> Emittable(ConvArgs(args, vi)[i])
  {
    if args != [] {
      ConvEmittable(args[0], vi);
      ConvArgsEmittable(args[1..], vi + Temps(args[0]));
    }
  }

  ghost predicate AllPlain(bs: seq<Block>) {
    forall i :: 0 <= i < |bs| ==> PlainBlock(bs[i])
  }

  lemma ConvAllPlain(e: Expr, vi: nat)
    ensures AllPlain(ConvBlocks(e, vi)) && Emittable(ConvValue(e, vi))
  {
    ConvEmittable(e, vi);
    forall i | 0 <= i < |ConvBlocks(e, vi)| ensures PlainBlock(ConvBlocks(e, vi)[i]) {
      ConvPlain(e, vi, i);
    }
  }

  lemma ArgsAllPlain(args: seq<Expr>, vi: nat, f: string)
    ensures AllPlain(ConvArgsBlocks(args, vi) + [CallB(f, ConvArgs(args, vi))])
  {
    ConvArgsEmittable(args, vi);
    forall i | 0 <= i < |ConvArgsBlocks(args, vi)| ensures PlainBlock(ConvArgsBlocks(args, vi)[i]) {
      ConvArgsPlain(args, vi, i);
    }
  }

  lemma AllPlainConcat(a: seq<Block>, b: seq<Block>)
    requires AllPlain(a) && AllPlain(b)
    ensures AllPlain(a + b)
  {
  }

  lemma LoopEndsPlain(x: string, from: Expr, to: Expr, vi: nat, vt: nat, li: nat, end: nat)
    ensures AllPlain(ForHead(x, from, vi, li)) && AllPlain(ForTail(x, to, vt, li, end))
  {
    hide ConvBlocks, ConvValue;
    ConvAllPlain(from, vi);
    ConvAllPlain(to, vt);
    assert Emittable(LocalValue(User(x))) && Emittable(Imm(1));
    assert PlainBlock(StoreB(PlainPlace(User(x)), Op(OpAdd, LocalValue(User(x)), Imm(1))));
    assert PlainBlock(CmpB(LocalValue(User(x)), ConvValue(to, vt)));
    var a := [StoreB(PlainPlace(User(x)), Op(OpAdd, LocalValue(User(x)), Imm(1))), CmpB(LocalValue(User(x)), ConvValue(to, vt))];
    var b := [JmpB(Eq, ELabel(end)), JmpB(Always, LLabel(li)), LabelB(ELabel(end))];
    assert AllPlain(a) && AllPlain(b);
    AllPlainConcat(a, ConvBlocks(to, vt));
    AllPlainConcat(a + ConvBlocks(to, vt), b);
  }

  lemma {:induction false} StmtPlain(st: Stmt, vi: nat, li: nat)
    ensures AllPlain(StmtBlocks(st, vi, li))
    decreases st, 1
  {
    hide ConvBlocks, ConvArgsBlocks, ConvValue, StmtsBlocks, ForHead, ForTail;
    match st
    case Decl(_) =>
    case Assign(_, e) => ConvAllPlain(e, vi);
    case If(_, l, r, body) =>
      var vr := vi + Temps(l);
      ConvAllPlain(l, vi);
      ConvAllPlain(r, vr);
      StmtsPlain(body, vr + Temps(r), li + 2);
      var test := [CmpB(ConvValue(l, vi), ConvValue(r, vr)),
                   JmpB(if st.equal then Eq else Neq, LLabel(li)), JmpB(Always, LLabel(li + 1)), LabelB(LLabel(li))];
      var inner := StmtsBlocks(body, vr + Temps(r), li + 2);
      AllPlainConcat(inner, [LabelB(LLabel(li + 1))]);
      AllPlainConcat(test, inner + [LabelB(LLabel(li + 1))]);
      AllPlainConcat(ConvBlocks(l, vi), ConvBlocks(r, vr));
      AllPlainConcat(ConvBlocks(l, vi) + ConvBlocks(r, vr), test + (inner + [LabelB(LLabel(li + 1))]));
    case For(_, from, to, body) =>
      var vb := vi + Temps(from);
      StmtsPlain(body, vb, li + 1);
      var inner := StmtsBlocks(body, vb, li + 1);
      LoopEndsPlain(st.x, from, to, vi, vb + TempsSs(body), li, li + 1 + LabelsSs(body));
      AllPlainConcat(inner, ForTail(st.x, to, vb + TempsSs(body), li, li + 1 + LabelsSs(body)));
      AllPlainConcat(ForHead(st.x, from, vi, li), inner + ForTail(st.x, to, vb + TempsSs(body), li, li + 1 + LabelsSs(body)));
    case Return(None) =>
    case Return(Some(e)) => ConvAllPlain(e, vi);
    case CallS(f, args) => ArgsAllPlain(args, vi, f);
  }

  lemma {:induction false} StmtsPlain(ss: seq<Stmt>, vi: nat, li: nat)
    ensures AllPlain(StmtsBlocks(ss, vi, li))
    decreases ss, 0
  {
    hide StmtBlocks, AllPlain;
    if ss == [] {
      NothingPlain();
    } else {
      StmtPlain(ss[0], vi, li);
      StmtsPlain(ss[1..], vi + TempsS(ss[0]), li + Labels(ss[0]));
      AllPlainConcat(StmtBlocks(ss[0], vi, li), StmtsBlocks(ss[1..], vi + TempsS(ss[0]), li + Labels(ss[0])));
    }
  }

  lemma NothingPlain()
    ensures AllPlain([])
  {
  }

  /**
   The single walk that gives out offsets while it prints produces the code the layout
   functions define, and never meets a value it cannot emit.
   */
  lemma FuncEmitted(o: Options, lay: Layout, size: nat, f: Func)
    ensures EmittableBlocks(FuncBlocks(f))
    ensures EmitFrom(o, lay, size, FuncBlocks(f)) + [Ins(Ret)] == FuncLines(o, f)
  {
    hide EmitFrom, LocalBlocks, FuncSlots, StmtsBlocks, ArgBlocks, EmitBlock, EmitBlocks, LayoutOf;
    var slots := FuncSlots(f);
    var rest := ArgBlocks(f.params) + (StmtsBlocks(f.body, 0, 0) + [LabelB(EXIT), Epilogue]);
    StmtsPlain(f.body, 0, 0);
    RestPlain(f);
    EmitFromCons(o, lay, size, Preamble, LocalBlocks(slots) + rest);
    EmitFromLocals(o, FuncLayout(f), slots, rest);
    EmitFromRest(o, LayoutOf(slots), FrameSize(slots), rest);
    EmitBlocksAppend(o, FuncLayout(f), LocalBlocks(slots), rest);
    PreambleLines(o, FuncLayout(f), LocalBlocks(slots) + rest);
    LocalsEmittable(slots);
  }

  lemma RestPlain(f: Func)
    requires AllPlain(StmtsBlocks(f.body, 0, 0))
    ensures AllPlain(ArgBlocks(f.params) + (StmtsBlocks(f.body, 0, 0) + [LabelB(EXIT), Epilogue]))
  {
    hide StmtsBlocks;
  }

  lemma PreambleLines(o: Options, lay: Layout, rest: seq<Block>)
    ensures EmitBlocks(o, lay, [Preamble] + rest) == EmitBlock(o, map[], Preamble) + EmitBlocks(o, lay, rest)
  {
    assert ([Preamble] + rest)[1..] == rest;
  }

  lemma {:induction false} LocalsEmittable(slots: seq<Slot>)
    ensures EmittableBlocks(LocalBlocks(slots))
  {
    if slots != [] {
      LocalsEmittable(slots[1..]);
    }
  }

  lemma LinesConcat(a: seq<Instr>, b: seq<Instr>)
    ensures Lines(a + b) == Lines(a) + Lines(b)
  {
  }

  lemma Regroup<T>(pre: seq<T>, a: seq<T>, b: seq<T>, c: seq<T>)
    ensures pre + a + b + c == pre + (a + (b + c))
  {
  }

  /** Printing three stretches of code one after the other prints their concatenation. */
  lemma LinesThree(pre: seq<Line>, a: seq<Instr>, b: seq<Instr>, c: seq<Instr>)
    ensures pre + Lines(a) + Lines(b) + Lines(c) == pre + Lines(a + (b + c))
  {
    hide Lines;
    LinesConcat(b, c);
    LinesConcat(a, b + c);
    Regroup(pre, Lines(a), Lines(b), Lines(c));
  }

  function IndexReadCode(reg: GprIndex, v: Value): seq<Instr>
    requires v.Index?
  {
    [AddReg(R(R4), R(R6)), Load(R(reg), SReg(R(R4)))] +
    (if v.elemSize == 1 then [Two(AND, R(reg), SImm(0xff))] else [])
  }

  function OpTailCode(reg: GprIndex, op: BinOp): seq<Instr> {
    [Pop(R(R4)), Two(OpCode(op), R(reg), SReg(R(R4)))]
  }

  lemma OpCodeIs(o: Options, lay: Layout, reg: GprIndex, v: Value)
    requires v.Op?
    ensures EmitValue(o, lay, reg, v) ==
            if Folds(o, v.left, v.right) then [MovImm(R(reg), BinArith(v.op, v.left.n, v.right.n))]
            else EmitValue(o, lay, reg, v.right) + [Push(R(reg))] + (EmitValue(o, lay, reg, v.left) + OpTailCode(reg, v.op))
    ensures Emittable(v) <==> Emittable(v.left) && Emittable(v.right)
    ensures Folds(o, v.left, v.right) ==> Emittable(v)
  {
  }

  lemma NoArgs(o: Options, lay: Layout)
    ensures Lines(EmitArgs(o, lay, [])) == []
  {
  }

  lemma CmpIs(o: Options, lay: Layout, l: Value, r: Value)
    ensures EmitCmp(o, lay, l, r) ==
            if o.cmpLiteral && r.Imm? then EmitValue(o, lay, R5, l) + [Two(CMP, R(R5), SImm(r.n))]
            else EmitValue(o, lay, R5, l) + EmitValue(o, lay, R6, r) + [Two(CMP, R(R5), SReg(R(R6)))]
  {
    hide EmitValue;
  }

  lemma ImmEmittable(v: Value)
    requires v.Imm?
    ensures Emittable(v)
  {
  }

  function BehindCode(lay: Layout, res: GprIndex, scratch: GprIndex, p: Place): seq<Instr>
    requires p.PPointer?
  {
    [Two(MUL, R(res), SImm(p.elemSize)), MovReg(R(scratch), BP), SubImm(R(scratch), Off(lay, p.x) - p.offset),
     Load(R(scratch), SReg(R(scratch))), AddReg(R(scratch), R(res)), Pop(R(res)), Store(R(res), SReg(R(scratch)))]
  }

  lemma IndexCode(o: Options, lay: Layout, reg: GprIndex, v: Value)
    requires v.Index?
    ensures EmitValue(o, lay, reg, v) ==
            (EmitValue(o, lay, R6, v.index) + [Two(MUL, R(R6), SImm(v.elemSize))]) +
            (EmitBase(o, lay, v) + IndexReadCode(reg, v))
    ensures Emittable(v) <==>
            Emittable(v.index) && (if v.viaPointer then Emittable(v.base) else v.base.Local? || v.base.Global?)
  {
    hide EmitAddr;
  }

  // The object ------------------------------------------------------------------------

  class Printer {
    const opts: Options
    var out: seq<Line>
    /** The offset each local block was given, and the bytes given out so far. */
    var offsets: Layout
    var localsSize: nat

    constructor (opts: Options)
      ensures this.opts == opts && out == [] && offsets == map[] && localsSize == 0
    {
      this.opts := opts;
      out := [];
      offsets := map[];
      localsSize := 0;
    }

    method Print(i: Instr)
      modifies this`out
      ensures out == old(out) + Lines([i])
    {
      out := out + [Ins(i)];
    }

    method StoreValueAddr(reg: GprIndex, v: Value) returns (ok: bool)
      modifies this`out
      ensures ok == (v.Local? || v.Global?)
      ensures ok ==> out == old(out) + Lines(EmitAddr(offsets, reg, v))
    {
      match v
      case Local(x, offset, deref, _) =>
        if deref {
          Print(MovReg(R(R4), BP));
          Print(SubImm(R(R4), Off(offsets, x)));
          Print(Load(R(reg), SReg(R(R4))));
          Print(Two(ADD, R(reg), SImm(offset)));
        } else {
          Print(MovReg(R(reg), BP));
          Print(SubImm(R(reg), Off(offsets, x) - offset));
        }
        ok := true;
      case Global(name, _) =>
        Print(MovSym(R(reg), GlobalSym(name)));
        ok := true;
      case _ => ok := false;
    }

    /** Prints the code of a value; false where the source stops with an error. */
    method StoreValue(reg: GprIndex, v: Value) returns (ok: bool)
      modifies this`out
      ensures ok == Emittable(v)
      ensures ok ==> out == old(out) + Lines(EmitValue(opts, offsets, reg, v))
      decreases v, 1
    {
      match v
      case Imm(n) =>
        Print(MovImm(R(reg), n));
        ok := true;
      case Local(_, _, _, decay) =>
        ok := StoreValueAddr(R4, v);
        Print(Fetched(reg, decay));
      case Global(_, decay) =>
        ok := StoreValueAddr(R4, v);
        Print(Fetched(reg, decay));
      case Str(id) =>
        Print(MovSym(R(reg), StringSym(id)));
        ok := true;
      case Op(_, _, _) => ok := EmitOp(reg, v);
      case AddrOf(x) =>
        Print(MovReg(R(reg), BP));
        Print(SubImm(R(reg), Off(offsets, x)));
        ok := true;
      case Index(_, _, _, _) => ok := EmitIndex(reg, v);
    }

    method EmitOp(reg: GprIndex, v: Value) returns (ok: bool)
      requires v.Op?
      modifies this`out
      ensures ok == Emittable(v)
      ensures ok ==> out == old(out) + Lines(EmitValue(opts, offsets, reg, v))
      decreases v, 0
    {
      hide EmitValue, Emittable, Lines;
      OpCodeIs(opts, offsets, reg, v);
      if Folds(opts, v.left, v.right) {
        Print(MovImm(R(reg), BinArith(v.op, v.left.n, v.right.n)));
        return true;
      }
      ok := StoreValue(reg, v.right);
      if !ok { return; }
      Print(Push(R(reg)));
      ghost var A := EmitValue(opts, offsets, reg, v.right);
      LinesConcat(A, [Push(R(reg))]);
      assert old(out) + Lines(A) + Lines([Push(R(reg))]) == old(out) + Lines(A + [Push(R(reg))]);
      ok := StoreValue(reg, v.left);
      if !ok { return; }
      PopAndOperate(reg, v.op);
      LinesThree(old(out), A + [Push(R(reg))], EmitValue(opts, offsets, reg, v.left), OpTailCode(reg, v.op));
    }

    method PopAndOperate(reg: GprIndex, op: BinOp)
      modifies this`out
      ensures out == old(out) + Lines(OpTailCode(reg, op))
    {
      Print(Pop(R(R4)));
      Print(Two(OpCode(op), R(reg), SReg(R(R4))));
    }

    method EmitIndex(reg: GprIndex, v: Value) returns (ok: bool)
      requires v.Index?
      modifies this`out
      ensures ok == Emittable(v)
      ensures ok ==> out == old(out) + Lines(EmitValue(opts, offsets, reg, v))
      decreases v, 0
    {
      hide EmitValue, EmitAddr, Emittable, Lines;
      IndexCode(opts, offsets, reg, v);
      ok := StoreValue(R6, v.index);
      if !ok { return; }
      Print(Two(MUL, R(R6), SImm(v.elemSize)));
      if v.viaPointer {
        ok := StoreValue(R4, v.base);
      } else {
        ok := StoreValueAddr(R4, v.base);
      }
      if !ok { return; }
      ReadElement(reg, v);
      LinesConcat(EmitValue(opts, offsets, R6, v.index), [Two(MUL, R(R6), SImm(v.elemSize))]);
      assert old(out) + Lines(EmitValue(opts, offsets, R6, v.index)) + Lines([Two(MUL, R(R6), SImm(v.elemSize))])
          == old(out) + Lines(EmitValue(opts, offsets, R6, v.index) + [Two(MUL, R(R6), SImm(v.elemSize))]);
      LinesConcat(EmitBase(opts, offsets, v), IndexReadCode(reg, v));
      LinesThree(old(out), EmitValue(opts, offsets, R6, v.index) + [Two(MUL, R(R6), SImm(v.elemSize))],
                 EmitBase(opts, offsets, v), IndexReadCode(reg, v));
    }

    /** Adds the scaled index, reads there, and cuts a byte off. */
    method ReadElement(reg: GprIndex, v: Value)
      requires v.Index?
      modifies this`out
      ensures out == old(out) + Lines(IndexReadCode(reg, v))
    {
      Print(AddReg(R(R4), R(R6)));
      Print(Load(R(reg), SReg(R(R4))));
      if v.elemSize == 1 {
        Print(Two(AND, R(reg), SImm(0xff)));
      }
    }

    method StoreIntoArray(res: GprIndex, scratch: GprIndex, p: Place) returns (ok: bool)
      requires p.PArray?
      modifies this`out
      ensures ok == Emittable(p.index)
      ensures ok ==> out == old(out) + Lines(EmitStore(opts, offsets, res, scratch, p))
    {
      hide EmitValue, Emittable;
      ok := StoreValue(scratch, p.index);
      if !ok { return; }
      Print(Two(MUL, R(scratch), SImm(p.elemSize)));
      Print(AddReg(R(scratch), BP));
      Print(SubImm(R(scratch), Off(offsets, p.x) - p.offset));
      Print(Store(R(res), SReg(R(scratch))));
    }

    method StoreThroughPointer(res: GprIndex, scratch: GprIndex, p: Place) returns (ok: bool)
      requires p.PPointer?
      modifies this`out
      ensures ok == Emittable(p.index)
      ensures ok ==> out == old(out) + Lines(EmitStore(opts, offsets, res, scratch, p))
    {
      hide EmitValue, Emittable, Lines;
      Print(Push(R(res)));
      ok := StoreValue(res, p.index);
      if !ok { return; }
      StoreBehind(res, scratch, p);
      LinesThree(old(out), [Push(R(res))], EmitValue(opts, offsets, res, p.index), BehindCode(offsets, res, scratch, p));
    }

    method StoreBehind(res: GprIndex, scratch: GprIndex, p: Place)
      requires p.PPointer?
      modifies this`out
      ensures out == old(out) + Lines(BehindCode(offsets, res, scratch, p))
    {
      Print(Two(MUL, R(res), SImm(p.elemSize)));
      Print(MovReg(R(scratch), BP));
      Print(SubImm(R(scratch), Off(offsets, p.x) - p.offset));
      Print(Load(R(scratch), SReg(R(scratch))));
      Print(AddReg(R(scratch), R(res)));
      Print(Pop(R(res)));
      Print(Store(R(res), SReg(R(scratch))));
    }

    method StoreRegister(res: GprIndex, scratch: GprIndex, p: Place) returns (ok: bool)
      modifies this`out
      ensures ok == EmittablePlace(p)
      ensures ok ==> out == old(out) + Lines(EmitStore(opts, offsets, res, scratch, p))
    {
      hide EmitValue, Emittable;
      ok := true;
      match p
      case PGlobal(name) =>
        Print(MovSym(R(scratch), GlobalSym(name)));
        Print(Store(R(res), SReg(R(scratch))));
      case PVar(x, offset) =>
        Print(MovReg(R(scratch), BP));
        Print(SubImm(R(scratch), Off(offsets, x) - offset));
        Print(Store(R(res), SReg(R(scratch))));
      case PArray(_, _, _, _) => ok := StoreIntoArray(res, scratch, p);
      case PPointer(_, _, _, _) => ok := StoreThroughPointer(res, scratch, p);
    }

    method EmitCall(f: string, args: seq<Value>) returns (ok: bool)
      modifies this`out
      ensures ok == EmittableBlock(CallB(f, args))
      ensures ok ==> out == old(out) + Lines(BlockCode(opts, offsets, CallB(f, args)))
    {
      hide EmitValue, Emittable, Lines;
      NoArgs(opts, offsets);
      for i := 0 to |args|
        invariant forall j :: 0 <= j < i ==> Emittable(args[j])
        invariant out == old(out) + Lines(EmitArgs(opts, offsets, args[..i]))
      {
        ok := StoreValue(ArgReg(i), args[i]);
        if !ok { return; }
        assert args[..i + 1][..i] == args[..i];
        LinesConcat(EmitArgs(opts, offsets, args[..i]), EmitValue(opts, offsets, ArgReg(i), args[i]));
      }
      assert args[..|args|] == args;
      Print(Call(SSym(f)));
      LinesConcat(EmitArgs(opts, offsets, args), [Call(SSym(f))]);
      ok := true;
    }

    method EmitCompare(l: Value, r: Value) returns (ok: bool)
      modifies this`out
      ensures ok == EmittableBlock(CmpB(l, r))
      ensures ok ==> out == old(out) + Lines(EmitCmp(opts, offsets, l, r))
    {
      hide EmitValue, EmitCmp, Emittable, Lines;
      CmpIs(opts, offsets, l, r);
      ok := StoreValue(R5, l);
      if !ok { return; }
      if opts.cmpLiteral && r.Imm? {
        Print(Two(CMP, R(R5), SImm(r.n)));
        LinesConcat(EmitValue(opts, offsets, R5, l), [Two(CMP, R(R5), SImm(r.n))]);
        ImmEmittable(r);
        return;
      }
      ok := StoreValue(R6, r);
      if !ok { return; }
      Print(Two(CMP, R(R5), SReg(R(R6))));
      LinesThree(old(out), EmitValue(opts, offsets, R5, l), EmitValue(opts, offsets, R6, r),
                 [Two(CMP, R(R5), SReg(R(R6)))]);
    }

    method EmitLocal(slot: Slot)
      modifies this`out, this`offsets, this`localsSize
      ensures (offsets, localsSize) == OffsetsAfter(old(offsets), old(localsSize), LocalB(slot))
      ensures out == old(out) + EmitBlock(opts, offsets, LocalB(slot))
    {
      localsSize := localsSize + slot.size;
      offsets := offsets[slot.x := localsSize];
      Print(SubImm(SP, slot.size));
    }

    method EmitPreamble()
      modifies this`out, this`offsets, this`localsSize
      ensures (offsets, localsSize) == (map[], 0)
      ensures out == old(out) + EmitBlock(opts, offsets, Preamble)
    {
      offsets := map[];
      localsSize := 0;
      Print(Push(BP));
      Print(Push(R(4)));
      Print(Push(R(5)));
      Print(Push(R(6)));
      Print(Push(R(7)));
      Print(MovReg(BP, SP));
    }

    method EmitEpilogue()
      modifies this`out
      ensures out == old(out) + EmitBlock(opts, offsets, Epilogue)
    {
      Print(MovReg(SP, BP));
      Print(Pop(R(7)));
      Print(Pop(R(6)));
      Print(Pop(R(5)));
      Print(Pop(R(4)));
      Print(Pop(BP));
    }

    method EmitJump(kind: JmpKind, dest: string)
      modifies this`out
      ensures out == old(out) + Lines(JmpCode(kind, dest))
    {
      match kind
      case Always => Print(Jmp(SSym("@" + dest)));
      case Eq => Print(Jeq(SSym("@" + dest)));
      case Neq =>
        Print(Cfs);
        Print(Jeq(SSym("@" + dest)));
    }

    method EmitOne(b: Block) returns (ok: bool)
      modifies this`out, this`offsets, this`localsSize
      ensures ok == EmittableBlock(b)
      ensures ok ==> (offsets, localsSize) == OffsetsAfter(old(offsets), old(localsSize), b)
      ensures ok ==> out == old(out) + EmitBlock(opts, offsets, b)
    {
      hide EmitValue, EmitStore, EmitCmp, EmitArgs, Emittable, PreambleCode, EpilogueCode, JmpCode;
      ok := true;
      match b
      case Preamble => EmitPreamble();
      case Epilogue => EmitEpilogue();
      case LocalB(slot) => EmitLocal(slot);
      case StoreB(place, v) =>
        ok := StoreValue(R5, v);
        if ok {
          ok := StoreRegister(R5, R4, place);
        }
      case StoreReturn(v) => ok := StoreValue(0, v);
      case StoreResult(x) => ok := StoreRegister(0, R4, PlainPlace(x));
      case StoreArg(x, i) => ok := StoreRegister(ArgReg(i), R4, PlainPlace(x));
      case CallB(f, args) => ok := EmitCall(f, args);
      case JmpB(kind, dest) => EmitJump(kind, dest);
      case CmpB(l, r) => ok := EmitCompare(l, r);
      case LabelB(name) => out := out + [Label("@" + name)];
    }

    /** Walks the blocks of a function, printing as it goes. */
    method EmitFunc(name: string, bs: seq<Block>) returns (ok: bool)
      modifies this
      ensures ok == EmittableBlocks(bs)
      ensures ok ==> out == old(out) + [Label(name)] + EmitFrom(opts, old(offsets), old(localsSize), bs) + [Ins(Ret)]
    {
      hide EmitBlock, EmittableBlock, OffsetsAfter;
      out := out + [Label(name)];
      for i := 0 to |bs|
        invariant forall j :: 0 <= j < i ==> EmittableBlock(bs[j])
        invariant out + EmitFrom(opts, offsets, localsSize, bs[i..]) ==
                  old(out) + [Label(name)] + EmitFrom(opts, old(offsets), old(localsSize), bs)
      {
        ok := EmitOne(bs[i]);
        if !ok { return; }
        assert bs[i..][1..] == bs[i + 1..];
      }
      Print(Ret);
      ok := true;
    }

    /** A whole function comes out as its label and the lines its layout defines. */
    method EmitCompiled(f: Func)
      modifies this
      ensures out == old(out) + [Label(f.name)] + FuncLines(opts, f)
    {
      FuncEmitted(opts, offsets, localsSize, f);
      var ok := EmitFunc(f.name, FuncBlocks(f));
    }
  }
}
