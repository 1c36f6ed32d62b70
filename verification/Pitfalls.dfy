/**
 Small inputs at which the code does not do what one would expect, one for each exact
 condition stated elsewhere.
 */
module Pitfalls {
  import opened Words
  import opened Machine
  import opened Images
  import opened Values
  import opened Emit
  import opened ExprProof
  import opened StoreProof
  import opened Frames
  import opened Types
  import opened TypedFrames
  import opened Scratch
  import Encoding
  import ByteBuffers
  import Assembly
  import Interrupts
  import Regions
  import Iof
  import Parser
  import opened Nodes
  import opened Compile
  import opened Checks
  import opened Compiler
  import opened Convention

  lemma EvalSum(o: Options, l: Value, c: Ctx)
    ensures var v := Op(OpAdd, l, Imm(1));
            && Eval(v, c) == Wrap(BinArith(OpAdd, Eval(l, c), Eval(Imm(1), c)))
            && InR4(o, v, c) == (if Folds(o, l, Imm(1)) then Eval(v, c)
                                 else Wrap(BinArith(OpAdd, InR4(o, Imm(1), c), InR4(o, Imm(1), c))))
            && Eval(Imm(1), c) == Wrap(1) && InR4(o, Imm(1), c) == Wrap(1)
  {
    hide Wrap, BinArith;
  }

  lemma SmallWords()
    ensures Wrap(1) == 1 && Wrap(2) == 2 && Wrap(3) == 3
  {
  }

  lemma OnePlusOne(o: Options, x: Var, c: Ctx)
    requires Eval(Local(x, 0, false, false), c) == 2
    ensures var v := Op(OpAdd, Local(x, 0, false, false), Imm(1)); Eval(v, c) == 3 && InR4(o, v, c) == 2
  {
    hide Eval, InR4, Wrap;
    EvalSum(o, Local(x, 0, false, false), c);
    SmallWords();
  }

  /** The index of `a[i + 1] = x`, evaluated into r4 with i == 2: the code makes 2 of it. */
  lemma IndexPlusOne(o: Options, lay: Layout, names: Names, x: Var, s: State, lim: int) returns (t: State)
    requires var v := Op(OpAdd, Local(x, 0, false, false), Imm(1)); CanEvalInR4(o, lay, names, v, s, lim)
    requires Eval(Local(x, 0, false, false), CtxOf(lay, names, s)) == 2
    ensures var v := Op(OpAdd, Local(x, 0, false, false), Imm(1));
            && Runs(names, EmitValue(o, lay, R4, v), s, t, lim)
            && Eval(v, CtxOf(lay, names, s)) == 3 && t.regs.g[R4] == 2
  {
    hide Runs, CanEvalInR4, EmitValue, Eval, InR4, CtxOf;
    OnePlusOne(o, x, CtxOf(lay, names, s));
    t := OperatorIntoR4(o, lay, names, Op(OpAdd, Local(x, 0, false, false), Imm(1)), s, lim);
  }

  /** A char next to a byte that is 7: storing 0x0141 to it makes the neighbour 1. */
  lemma CharSpills(o: Options, names: Names, ds: seq<VarDecl>, i: nat, path: seq<Sel>, part: Part, p: Place,
                   s: State, lim: int)
    returns (t: State)
    requires Framed(ds, s) && Names1(ds, i, path, part) && CanStore(o, LayoutFor(ds), names, R5, p, s, lim)
    requires PlaceAddr(p, CtxOf(LayoutFor(ds), names, s)) as int == AddrOfPart(ds, i, part, s.regs.bp)
    requires part.ty.CharT? && s.regs.g[5] == 0x0141 && s.mem[AddrOfPart(ds, i, part, s.regs.bp) + 1] == 7
    ensures Runs(names, EmitStore(o, LayoutFor(ds), R5, R4, p), s, t, lim)
    ensures var a := AddrOfPart(ds, i, part, s.regs.bp); t.mem[a] == 0x41 && t.mem[a + 1] == 1
  {
    hide Runs, CanStore, EmitStore, PlaceAddr, AddrOfPart, Framed, Names1, OnlyChanges;
    t := StoreRule(o, names, ds, i, path, part, p, s, lim);
  }

  /** A function whose only local is a char: its store reaches into the saved r7. */
  lemma LoneChar(bp: u16)
    requires 0 < bp
    ensures var ds := [VarDecl(User("c"), CharT)];
            AddrOfPart(ds, 0, Part(0, CharT), bp) + 1 == bp && bp in SavedArea(bp)
  {
    var slots := SlotsOf([VarDecl(User("c"), CharT)]);
    assert slots == [Slot(User("c"), 1)] && slots[1..] == [] && FrameSize([]) == 0;
    assert IsSaved(bp, bp);
  }

  /** `mov r0, -1` is written, and read back, as `mov r0, 255`. */
  lemma MinusOne()
    ensures var b := Encoding.Encode(MovImm(R(0), -1), map[]).value.Bytes();
            Encoding.Decode(b[0], b[1], b[2], b[3]) == Some(MovImm(R(0), 255))
  {
    hide Encoding.Decode;
    Encoding.TwoRoundTrip(Names(map[], ""), MovImm(R(0), 255), 0);
  }

  /** A jump behind one byte: it lies at 4 with its address field at 5, its link point says 2. */
  lemma LinkBeforeField()
    ensures var st := Assembly.Asm([0], 1, [Assembly.LabelDef("f", 0)], [], "f", map[], [], None);
            var t := Assembly.Step1(st, Assembly.AIns(Jmp(SSym("f"))));
            t.Some? && t.value.pos == 8 && t.value.links == [Assembly.LinkPoint("f", 2)]
  {
    hide ByteBuffers.InsertAt;
    assert [] + [Assembly.LinkPoint("f", 2)] == [Assembly.LinkPoint("f", 2)];
  }

  /** Two labels between one byte and an instruction: only the first moves to the instruction. */
  lemma SecondLabelStays()
    ensures var st := Assembly.Asm([0], 1, [Assembly.LabelDef("a", 1), Assembly.LabelDef("b", 1)], [], "b", map[], [], None);
            var t := Assembly.Step1(st, Assembly.AIns(Ret));
            t.Some? && t.value.pos == 8 && t.value.labels == [Assembly.LabelDef("a", 4), Assembly.LabelDef("b", 1)]
  {
    hide ByteBuffers.InsertAt;
    var ls := [Assembly.LabelDef("a", 1), Assembly.LabelDef("b", 1)];
    assert Assembly.Bump(ls, 1, 4) == [Assembly.LabelDef("a", 4)] + ls[1..];
  }

  /** Two ready devices: rti goes to the entry of the first handler, not to the program. */
  lemma TwoDevices(c: Interrupts.Cpu)
    requires c.on && !c.busy && c.st.regs.ip == 0x40
    ensures var devs := [Interrupts.Device(0x100, true), Interrupts.Device(0x200, true)];
            var d := Interrupts.Polled(c, devs, [true, true]);
            d.st.regs.ip == 0x200 && d.cache.ip == 0x100
  {
    var devs := [Interrupts.Device(0x100, true), Interrupts.Device(0x200, true)];
    var e := Interrupts.Issue(c, 0x100);
    assert devs[1..] == [Interrupts.Device(0x200, true)] && [true, true][1..] == [true];
    assert Interrupts.PollAll(e, devs[1..], [true]) == Interrupts.Issue(e, 0x200) by {
      assert devs[1..][1..] == [];
    }
  }

  /** A section that fills a free region exactly: the allocated region behind it is lost. */
  lemma LostTail()
    ensures var c := [Regions.Span(true, 0, 100, 0), Regions.Span(false, 100, 50, 1)];
            Regions.Insert(c, 0, Regions.Span(false, 0, 100, 2)) == Some([Regions.Span(false, 0, 100, 2)])
  {
    var c := [Regions.Span(true, 0, 100, 0), Regions.Span(false, 100, 50, 1)];
    assert c[..0] + [Regions.Span(false, 0, 100, 2)] == [Regions.Span(false, 0, 100, 2)];
  }

  /** A section with origin 8 and no code: its empty code does not read back. */
  lemma OriginOnly(b: Iof.Builder, base: Iof.Bytes)
    requires Iof.Holds(b, base) && Iof.Builds(b) && b.originSet && b.origin == 8 && b.code == []
    ensures Iof.StoredCode(b) == [] && Iof.ReadCode(base) != Some([])
  {
    hide Iof.Holds, Iof.ReadCode, Iof.Builds;
    Iof.CodeRead(b, base);
  }

  /** `x as int as char` parses as `x as char`. */
  lemma CastTwice(fuel: nat)
    requires fuel >= 20
    ensures var e := Parser.Cast(Parser.Cast(Parser.Name("x"), "int", false), "char", false);
            Parser.Parse([] + Parser.Print(e) + [Parser.RParen] + [], 0, fuel) ==
            Parser.Done(Parser.Cast(Parser.Name("x"), "char", false), |Parser.Print(e)| - 1)
  {
    hide Parser.Parse, Parser.Print;
    var e := Parser.Cast(Parser.Cast(Parser.Name("x"), "int", false), "char", false);
    Parser.RoundTrip(e, [], Parser.RParen, [], fuel);
  }

  /** `for` over a parameter's name is accepted, and the function has two locals of it. */
  lemma IndexTwice()
    ensures var f := Func("f", ["x"], [For("x", Num(0), Num(3), [])]);
            AcceptFunc([], false, f) && FuncLocals(f) == [User("x"), User("x")]
  {
    var f := Func("f", ["x"], [For("x", Num(0), Num(3), [])]);
    assert f.body[1..] == [];
    assert LocalsSs(f.body[1..], 0) == [] && LocalsSs([], 0) == [] && TempList(0, 0) == [];
    assert LocalsS(f.body[0], 0) == [User("x")];
    assert LocalsSs(f.body, 0) == [User("x")];
    assert UserVars(["x"]) == [User("x")];
  }

  /** `for i ... to g()`: the comparison comes before the call whose result it compares with. */
  lemma BoundTooLate()
    ensures var t := Temp(0);
            ForTail("i", CallE("g", []), 0, 0, 1)[..4] ==
            [StoreB(PlainPlace(User("i")), Op(OpAdd, LocalValue(User("i")), Imm(1))),
             CmpB(LocalValue(User("i")), LocalValue(t)), CallB("g", []), StoreResult(t)]
  {
    assert ConvArgs([], 1) == [] && ConvArgsBlocks([], 1) == [];
    assert ConvBlocks(CallE("g", []), 0) == [CallB("g", []), StoreResult(Temp(0))];
  }
}
