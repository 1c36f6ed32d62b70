/**
 The lines a function's blocks are printed as.
 */
module FuncCode {
  import opened Words
  import opened Machine
  import opened Images
  import opened Values
  import opened Emit
  import opened Frames
  import opened Nodes
  import opened Compile
  import opened Traces

  function PreambleCode(): seq<Instr> {
    [Push(BP), Push(R(4)), Push(R(5)), Push(R(6)), Push(R(7)), MovReg(BP, SP)]
  }

  function EpilogueCode(): seq<Instr> {
    [MovReg(SP, BP), Pop(R(7)), Pop(R(6)), Pop(R(5)), Pop(R(4)), Pop(BP)]
  }

  function JmpCode(kind: JmpKind, dest: string): seq<Instr> {
    match kind
    case Always => [Jmp(SSym("@" + dest))]
    case Eq => [Jeq(SSym("@" + dest))]
    case Neq => [Cfs, Jeq(SSym("@" + dest))]
  }

  function BlockCode(o: Options, lay: Layout, b: Block): seq<Instr> {
    match b
    case Preamble => PreambleCode()
    case Epilogue => EpilogueCode()
    case LocalB(slot) => [SubImm(SP, slot.size)]
    case StoreB(place, v) => EmitValue(o, lay, R5, v) + EmitStore(o, lay, R5, R4, place)
    case StoreReturn(v) => EmitValue(o, lay, 0, v)
    case StoreResult(x) => EmitStore(o, lay, 0, R4, PlainPlace(x))
    case StoreArg(x, i) => EmitStore(o, lay, ArgReg(i), R4, PlainPlace(x))
    case CallB(f, args) => EmitArgs(o, lay, args) + [Call(SSym(f))]
    case JmpB(kind, dest) => JmpCode(kind, dest)
    case CmpB(l, r) => EmitCmp(o, lay, l, r)
    case LabelB(_) => []
  }

  function EmitBlock(o: Options, lay: Layout, b: Block): seq<Line> {
    if b.LabelB? then [Label("@" + b.name)] else Lines(BlockCode(o, lay, b))
  }

  function EmitBlocks(o: Options, lay: Layout, bs: seq<Block>): seq<Line> {
    if bs == [] then [] else EmitBlock(o, lay, bs[0]) + EmitBlocks(o, lay, bs[1..])
  }

  lemma {:induction false} EmitBlocksAppend(o: Options, lay: Layout, a: seq<Block>, b: seq<Block>)
    ensures EmitBlocks(o, lay, a + b) == EmitBlocks(o, lay, a) + EmitBlocks(o, lay, b)
  {
    if a == [] {
      assert a + b == b;
    } else {
      assert (a + b)[0] == a[0] && (a + b)[1..] == a[1..] + b;
      EmitBlocksAppend(o, lay, a[1..], b);
    }
  }

  function FuncLayout(f: Func): Layout {
    LayoutOf(FuncSlots(f))
  }

  /** The lines of a function after its own label. */
  function FuncLines(o: Options, f: Func): seq<Line> {
    EmitBlocks(o, FuncLayout(f), FuncBlocks(f)) + [Ins(Ret)]
  }

  // Marks ------------------------------------------------------------------------------

  /** What to look at behind a block: the register it stores or returns, the arguments of
      its call, the flag its jump reads. */
  function BlockMark(b: Block): Mark {
    match b
    case StoreB(_, _) => StoreMark(R5)
    case StoreResult(_) => StoreMark(0)
    case StoreArg(_, i) => StoreMark(ArgReg(i))
    case StoreReturn(_) => ReturnMark
    case CallB(f, args) => CallMark(f, |args|)
    case JmpB(kind, _) => if kind.Always? then NoMark else FlagMark
    case _ => NoMark
  }

  function BlocksMarks(o: Options, lay: Layout, bs: seq<Block>): seq<Mark> {
    if bs == [] then []
    else EndMarks(BlockMark(bs[0]), |BlockCode(o, lay, bs[0])|) + BlocksMarks(o, lay, bs[1..])
  }

  lemma {:induction false} BlocksMarksAppend(o: Options, lay: Layout, a: seq<Block>, b: seq<Block>)
    ensures BlocksMarks(o, lay, a + b) == BlocksMarks(o, lay, a) + BlocksMarks(o, lay, b)
  {
    hide BlockCode, BlockMark;
    if a == [] {
      assert a + b == b;
    } else {
      assert (a + b)[0] == a[0] && (a + b)[1..] == a[1..] + b;
      BlocksMarksAppend(o, lay, a[1..], b);
    }
  }

  /** One mark an instruction. */
  lemma {:induction false} BlocksMarksCount(o: Options, lay: Layout, bs: seq<Block>)
    ensures |BlocksMarks(o, lay, bs)| == Count(EmitBlocks(o, lay, bs))
  {
    hide BlockCode, BlockMark;
    if bs != [] {
      BlockCount(o, lay, bs[0]);
      CountAppend(EmitBlock(o, lay, bs[0]), EmitBlocks(o, lay, bs[1..]));
      BlocksMarksCount(o, lay, bs[1..]);
    }
  }

  lemma BlockCount(o: Options, lay: Layout, b: Block)
    ensures Count(EmitBlock(o, lay, b)) == |BlockCode(o, lay, b)|
    ensures !b.LabelB? ==> BlockCode(o, lay, b) != []
  {
    if b.LabelB? {
      var line := Label("@" + b.name);
      assert [line][1..] == [] && Count([]) == 0;
    } else {
      CountLines(BlockCode(o, lay, b));
    }
  }

  function FuncMarks(o: Options, f: Func): seq<Mark> {
    BlocksMarks(o, FuncLayout(f), FuncBlocks(f)) + [NoMark]
  }

  function ProgramMarks(o: Options, p: Program): seq<Mark> {
    if p == [] then [] else FuncMarks(o, p[0]) + ProgramMarks(o, p[1..])
  }
}
