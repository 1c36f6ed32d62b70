/**
 Which compiled programs the assembler accepts: exactly those whose every callee is one
 of their functions.
 */
module Acceptance {
  import opened Words
  import opened Machine
  import opened Images
  import opened Encoding
  import opened ByteBuffers
  import opened Assembly
  import opened Values
  import opened Emit
  import opened Nodes
  import opened Compile
  import opened FuncCode
  import opened Frames
  import opened Checks
  import opened LabelNames
  import opened Toolchain
  import opened Literals

  // The first pass ---------------------------------------------------------------------

  /** Every label has a name, every instruction a form, and nothing local stands in front of
      the first regular label. */
  predicate Scoped(lines: seq<AsmLine>, scope: string)
    decreases |lines|
  {
    lines == [] ||
    match lines[0]
    case ALabel(n) =>
      n != "" && (IsLocal(n) ==> scope != "") && Scoped(lines[1..], if IsLocal(n) then scope else n)
    case AIns(i) =>
      && Encode(i, map[]).Some? && (Symbolic(i) && IsLocal(i.src.name) ==> scope != "")
      && Scoped(lines[1..], scope)
    case _ => Scoped(lines[1..], scope)
  }

  predicate Global1(n: string) {
    n != "" && n[0] != '@'
  }

  /** Labels that all differ once qualified are all accepted, as written too. */
  lemma {:induction false} TableAccepts(lines: seq<AsmLine>, c: Cursor)
    requires CodeOnly(lines) && c.values == map[] && Scoped(lines, c.last)
    requires NoDup(c.seen + DefinedNames(lines, c.last))
    requires forall n :: n in c.seen + DefinedNames(lines, c.last) ==> Global1(n)
    ensures Table(lines, c).Some?
    decreases |lines|
  {
    hide Encode, Exact, NoDup, Global1;
    if lines != [] {
      assert CodeLine(lines[0]);
      AdvanceAccepts(lines, c);
      var c1 := Advance(c, lines[0]).value;
      TableAccepts(lines[1..], c1);
    }
  }

  lemma AdvanceAccepts(lines: seq<AsmLine>, c: Cursor)
    requires lines != [] && CodeLine(lines[0]) && c.values == map[] && Scoped(lines, c.last)
    requires NoDup(c.seen + DefinedNames(lines, c.last))
    requires forall n :: n in c.seen + DefinedNames(lines, c.last) ==> Global1(n)
    ensures Advance(c, lines[0]).Some?
    ensures var c1 := Advance(c, lines[0]).value;
            && c1.values == map[] && Scoped(lines[1..], c1.last)
            && c1.seen + DefinedNames(lines[1..], c1.last) == c.seen + DefinedNames(lines, c.last)
  {
    hide Encode, Exact;
    var rest := DefinedNames(lines, c.last);
    match lines[0]
    case ALabel(n) =>
      NotSeen(c.seen, rest, n);
    case AIns(i) => EncShape(i);
    case _ =>
  }

  /** A label that differs from the earlier ones when qualified differs as written. */
  lemma NotSeen(seen: seq<string>, rest: seq<string>, n: string)
    requires NoDup(seen + rest) && rest != [] && (n == rest[0] || !Global1(n))
    requires forall m :: m in seen + rest ==> Global1(m)
    ensures n !in seen
  {
    forall i | 0 <= i < |seen| ensures seen[i] != n {
      assert (seen + rest)[i] == seen[i] && (seen + rest)[|seen|] == rest[0] && seen[i] in seen + rest;
    }
  }

  // The second pass ----------------------------------------------------------------------

  /** Every symbol, qualified where it stands, is one of the names. */
  predicate Resolvable(lines: seq<AsmLine>, scope: string, names: seq<string>)
    decreases |lines|
  {
    lines == [] ||
    match lines[0]
    case ALabel(n) => Resolvable(lines[1..], if IsLocal(n) then scope else n, names)
    case AIns(i) => (Symbolic(i) ==> Qualify(scope, i.src.name) in names) && Resolvable(lines[1..], scope, names)
    case _ => Resolvable(lines[1..], scope, names)
  }

  lemma {:induction false} LookupIff(table: seq<LabelDef>, name: string)
    ensures Lookup(table, name).Some? <==> name in NamesOf(table)
  {
    if table != [] {
      LookupIff(table[1..], name);
      assert NamesOf(table) == [table[0].name] + NamesOf(table[1..]);
    }
  }

  /** Once the first pass is through, the second is if and only if every symbol has a label. */
  lemma {:induction false} EmitsIff(lines: seq<AsmLine>, c: Cursor, code: seq<u8>, table: seq<LabelDef>)
    requires CodeOnly(lines) && c.values == map[] && Table(lines, c).Some?
    ensures Emit2(lines, c, Some(code), table).Some? <==> Resolvable(lines, c.last, NamesOf(table))
    decreases |lines|
  {
    hide Encode, Exact, Final, InsertAt, NextIns, NamesOf;
    if lines != [] {
      assert CodeLine(lines[0]);
      var c1 := Advance(c, lines[0]).value;
      FinalIff(lines[0], c, table);
      if Final(lines[0], c, table).Some? || !Emits(lines[0]) {
        EmitsIff(lines[1..], c1, Emit2One(lines[0], c, Some(code), table).value, table);
      } else {
        EmitNone(lines[1..], c1, table);
      }
    }
  }

  lemma FinalIff(line: AsmLine, c: Cursor, table: seq<LabelDef>)
    requires CodeLine(line) && c.values == map[] && Advance(c, line).Some?
    ensures line.AIns? ==>
              (Final(line, c, table).Some? <==>
               (Symbolic(line.i) ==> Qualify(c.last, line.i.src.name) in NamesOf(table)))
  {
    hide Encode, Exact, NamesOf;
    if line.AIns? {
      EncShape(line.i);
      if Symbolic(line.i) {
        LookupIff(table, Qualify(c.last, line.i.src.name));
      }
    }
  }

  // The symbols of code ---------------------------------------------------------------------

  function Symbols(code: seq<Line>): set<string> {
    set l | l in code && l.Ins? && Symbolic(l.i) :: l.i.src.name
  }

  lemma SymbolsAppend(a: seq<Line>, b: seq<Line>)
    ensures Symbols(a + b) == Symbols(a) + Symbols(b)
  {
  }

  lemma {:induction false} BodyResolvable(code: seq<Line>, rest: seq<AsmLine>, scope: string, names: seq<string>)
    requires LocalLabels(code)
    ensures Resolvable(ToAsm(code) + rest, scope, names) <==>
            (forall s :: s in Symbols(code) ==> Qualify(scope, s) in names) && Resolvable(rest, scope, names)
    decreases |code|
  {
    hide Qualify, LineLabels;
    if code == [] {
      assert ToAsm(code) + rest == rest;
    } else {
      FirstLabel(code);
      ToAsmHead(code, rest);
      BodyResolvable(code[1..], rest, scope, names);
      var head := ToAsm([code[0]])[0];
      assert ([head] + (ToAsm(code[1..]) + rest))[1..] == ToAsm(code[1..]) + rest;
      assert code == [code[0]] + code[1..];
      SymbolsAppend([code[0]], code[1..]);
    }
  }

  lemma {:induction false} BodyScoped(code: seq<Line>, rest: seq<AsmLine>, scope: string)
    requires LocalLabels(code) && ExactLines(code) && scope != "" && Scoped(rest, scope)
    ensures Scoped(ToAsm(code) + rest, scope)
    decreases |code|
  {
    hide LineLabels, Exact, Encode, HasForm;
    if code == [] {
      assert ToAsm(code) + rest == rest;
    } else {
      FirstLabel(code);
      ToAsmHead(code, rest);
      assert ExactLines(code[1..]);
      BodyScoped(code[1..], rest, scope);
      var head := ToAsm([code[0]])[0];
      assert ([head] + (ToAsm(code[1..]) + rest))[1..] == ToAsm(code[1..]) + rest;
      if code[0].Ins? {
        FormEncodes(code[0].i);
      }
    }
  }

  // The symbols of blocks --------------------------------------------------------------------

  /** A value whose code names no symbol. */
  predicate Bare(v: Value) {
    match v
    case Imm(_) => true
    case Local(_, _, _, _) => true
    case Op(_, l, r) => Bare(l) && Bare(r)
    case _ => false
  }

  predicate BareBlock(b: Block) {
    match b
    case StoreB(p, v) => p.PVar? && Bare(v)
    case StoreReturn(v) => Bare(v)
    case CallB(_, args) => forall i :: 0 <= i < |args| ==> Bare(args[i])
    case CmpB(l, r) => Bare(l) && Bare(r)
    case _ => true
  }

  /** The symbols a block's code names: a callee, or the label of a jump. */
  function Named(b: Block): set<string> {
    match b
    case CallB(f, _) => {f}
    case JmpB(_, dest) => {"@" + dest}
    case _ => {}
  }

  /** No instruction of the code has a symbol. */
  predicate Symbolless(code: seq<Instr>) {
    forall i :: 0 <= i < |code| ==> !Symbolic(code[i])
  }

  lemma SymbollessConcat(a: seq<Instr>, b: seq<Instr>)
    requires Symbolless(a) && Symbolless(b)
    ensures Symbolless(a + b)
  {
    hide Symbolic;
  }

  lemma SymbollessLines(code: seq<Instr>)
    requires Symbolless(code)
    ensures Symbols(Lines(code)) == {}
  {
    hide Symbolic;
  }

  lemma {:induction false} BareValue(o: Options, lay: Layout, reg: GprIndex, v: Value)
    requires Bare(v)
    ensures Symbolless(EmitValue(o, lay, reg, v))
  {
    hide Symbolless;
    match v
    case Imm(n) => BareCode(reg, n, [MovImm(R(reg), n)]);
    case Local(x, offset, deref, decay) =>
      BareAddr(lay, R4, v);
      BareCode(reg, 0, [Fetched(reg, decay)]);
      SymbollessConcat(EmitAddr(lay, R4, v), [Fetched(reg, decay)]);
    case Op(op, l, r) =>
      if Folds(o, l, r) {
        BareCode(reg, BinArith(op, l.n, r.n), [MovImm(R(reg), BinArith(op, l.n, r.n))]);
      } else {
        var tail := [Pop(R(R4)), Two(OpCode(op), R(reg), SReg(R(R4)))];
        BareValue(o, lay, reg, l);
        BareValue(o, lay, reg, r);
        BareTail(op, reg);
        SymbollessConcat(EmitValue(o, lay, reg, r), [Push(R(reg))]);
        SymbollessConcat(EmitValue(o, lay, reg, l), tail);
        SymbollessConcat(EmitValue(o, lay, reg, r) + [Push(R(reg))], EmitValue(o, lay, reg, l) + tail);
      }
  }

  lemma BareCode(reg: GprIndex, n: int, code: seq<Instr>)
    requires code == [MovImm(R(reg), n)] || code == [Fetched(reg, true)] || code == [Fetched(reg, false)]
    ensures Symbolless(code)
  {
  }

  lemma BareAddr(lay: Layout, reg: GprIndex, v: Value)
    requires v.Local?
    ensures Symbolless(EmitAddr(lay, reg, v))
  {
  }

  lemma BareTail(op: BinOp, reg: GprIndex)
    ensures Symbolless([Push(R(reg))]) && Symbolless([Pop(R(R4)), Two(OpCode(op), R(reg), SReg(R(R4)))])
  {
  }

  lemma BareStore(o: Options, lay: Layout, reg: GprIndex, p: Place)
    requires p.PVar?
    ensures Symbolless(EmitStore(o, lay, reg, R4, p))
  {
  }

  lemma {:induction false} BareArgs(o: Options, lay: Layout, args: seq<Value>)
    requires forall i :: 0 <= i < |args| ==> Bare(args[i])
    ensures Symbolless(EmitArgs(o, lay, args))
    decreases |args|
  {
    hide Symbolless, EmitValue, Bare;
    if args == [] {
      NothingSymbolless();
    } else {
      var n := |args| - 1;
      BareArgs(o, lay, args[..n]);
      BareValue(o, lay, ArgReg(n), args[n]);
      SymbollessConcat(EmitArgs(o, lay, args[..n]), EmitValue(o, lay, ArgReg(n), args[n]));
    }
  }

  lemma NothingSymbolless()
    ensures Symbolless([])
  {
  }

  lemma BareCmp(o: Options, lay: Layout, l: Value, r: Value)
    requires Bare(l) && Bare(r)
    ensures Symbolless(EmitCmp(o, lay, l, r))
  {
    hide EmitValue;
    BareValue(o, lay, R5, l);
    BareValue(o, lay, R6, r);
  }

  lemma BareFixed(slot: Slot)
    ensures Symbolless(PreambleCode()) && Symbolless(EpilogueCode()) && Symbolless([SubImm(SP, slot.size)])
  {
  }

  lemma BlockSymbols(o: Options, lay: Layout, b: Block)
    requires BareBlock(b)
    ensures Symbols(EmitBlock(o, lay, b)) == Named(b)
  {
    hide Symbolless, EmitValue, EmitStore, EmitArgs, EmitCmp, Bare, PreambleCode, EpilogueCode, JmpCode, Symbols, Lines;
    match b
    case StoreB(p, v) =>
      BareValue(o, lay, R5, v);
      BareStore(o, lay, R5, p);
      SymbollessConcat(EmitValue(o, lay, R5, v), EmitStore(o, lay, R5, R4, p));
      SymbollessLines(BlockCode(o, lay, b));
    case StoreReturn(v) =>
      BareValue(o, lay, 0, v);
      SymbollessLines(BlockCode(o, lay, b));
    case StoreResult(x) =>
      BareStore(o, lay, 0, PlainPlace(x));
      SymbollessLines(BlockCode(o, lay, b));
    case StoreArg(x, i) =>
      BareStore(o, lay, ArgReg(i), PlainPlace(x));
      SymbollessLines(BlockCode(o, lay, b));
    case CmpB(l, r) =>
      BareCmp(o, lay, l, r);
      SymbollessLines(BlockCode(o, lay, b));
    case CallB(f, args) =>
      BareArgs(o, lay, args);
      SymbollessLines(EmitArgs(o, lay, args));
      CallSymbols(f, EmitArgs(o, lay, args));
    case JmpB(kind, dest) => JumpSymbols(kind, dest);
    case LabelB(name) => LabelSymbols(name);
    case LocalB(slot) =>
      BareFixed(slot);
      SymbollessLines(BlockCode(o, lay, b));
    case _ =>
      BareFixed(Slot(Temp(0), 0));
      SymbollessLines(BlockCode(o, lay, b));
  }

  lemma CallSymbols(f: string, code: seq<Instr>)
    requires Symbols(Lines(code)) == {}
    ensures Symbols(Lines(code + [Call(SSym(f))])) == {f}
  {
    assert Lines(code + [Call(SSym(f))]) == Lines(code) + [Ins(Call(SSym(f)))];
    SymbolsAppend(Lines(code), [Ins(Call(SSym(f)))]);
    assert Symbols([Ins(Call(SSym(f)))]) == {f} by {
      var l := Ins(Call(SSym(f)));
      assert l in [l];
    }
  }

  lemma JumpSymbols(kind: JmpKind, dest: string)
    ensures Symbols(Lines(JmpCode(kind, dest))) == {"@" + dest}
  {
    var code := JmpCode(kind, dest);
    var l := Ins(code[|code| - 1]);
    assert Lines(code)[|code| - 1] == l && l in Lines(code);
    assert kind.Neq? ==> Lines(code)[0] == Ins(Cfs);
  }

  lemma LabelSymbols(name: string)
    ensures Symbols([Label("@" + name)]) == {}
  {
  }

  function AllNamed(bs: seq<Block>): set<string> {
    if bs == [] then {} else Named(bs[0]) + AllNamed(bs[1..])
  }

  lemma {:induction false} AllNamedAppend(a: seq<Block>, b: seq<Block>)
    ensures AllNamed(a + b) == AllNamed(a) + AllNamed(b)
  {
    hide Named;
    if a == [] {
      assert a + b == b;
    } else {
      assert (a + b)[0] == a[0] && (a + b)[1..] == a[1..] + b;
      AllNamedAppend(a[1..], b);
    }
  }

  predicate BareBlocks(bs: seq<Block>) {
    forall i :: 0 <= i < |bs| ==> BareBlock(bs[i])
  }

  lemma {:induction false} BlocksSymbols(o: Options, lay: Layout, bs: seq<Block>)
    requires BareBlocks(bs)
    ensures Symbols(EmitBlocks(o, lay, bs)) == AllNamed(bs)
  {
    hide BareBlock, EmitBlock, Named, Symbols;
    if bs == [] {
      NoSymbols();
    } else {
      BlockSymbols(o, lay, bs[0]);
      BlocksSymbols(o, lay, bs[1..]);
      SymbolsAppend(EmitBlock(o, lay, bs[0]), EmitBlocks(o, lay, bs[1..]));
    }
  }

  lemma NoSymbols()
    ensures Symbols([]) == {}
  {
  }

  // The callees of a source program -------------------------------------------------------------

  function Callees(e: Expr): set<string>
    decreases e, 1
  {
    match e
    case Num(_) => {}
    case Name(_) => {}
    case Bin(_, l, r) => Callees(l) + Callees(r)
    case CallE(f, args) => CalleesArgs(args) + {f}
  }

  function CalleesArgs(args: seq<Expr>): set<string>
    decreases args, 0
  {
    if args == [] then {} else Callees(args[0]) + CalleesArgs(args[1..])
  }

  function CalleesS(st: Stmt): set<string>
    decreases st, 1
  {
    match st
    case Decl(_) => {}
    case Assign(_, e) => Callees(e)
    case If(_, l, r, body) => Callees(l) + Callees(r) + CalleesSs(body)
    case For(_, from, to, body) => Callees(from) + CalleesSs(body) + Callees(to)
    case Return(None) => {}
    case Return(Some(e)) => Callees(e)
    case CallS(f, args) => CalleesArgs(args) + {f}
  }

  function CalleesSs(ss: seq<Stmt>): set<string>
    decreases ss, 0
  {
    if ss == [] then {} else CalleesS(ss[0]) + CalleesSs(ss[1..])
  }

  /** Every call names a function of the program. */
  predicate Complete(p: Program) {
    forall f, c :: f in p && c in CalleesSs(f.body) ==> FindFunc(p, c).Some?
  }

  /** The callees a block list's code names. */
  function Calls(bs: seq<Block>): set<string> {
    if bs == [] then {} else (if bs[0].CallB? then {bs[0].f} else {}) + Calls(bs[1..])
  }

  lemma {:induction false} CallsAppend(a: seq<Block>, b: seq<Block>)
    ensures Calls(a + b) == Calls(a) + Calls(b)
  {
    if a == [] {
      assert a + b == b;
    } else {
      assert (a + b)[0] == a[0] && (a + b)[1..] == a[1..] + b;
      CallsAppend(a[1..], b);
    }
  }

  lemma {:induction false} NoCalls(bs: seq<Block>)
    requires forall b :: b in bs ==> !b.CallB?
    ensures Calls(bs) == {}
  {
    if bs != [] {
      NoCalls(bs[1..]);
    }
  }

  lemma OneCall(f: string, args: seq<Value>, rest: seq<Block>)
    requires forall b :: b in rest ==> !b.CallB?
    ensures Calls([CallB(f, args)] + rest) == {f}
  {
    assert ([CallB(f, args)] + rest)[1..] == rest;
    NoCalls(rest);
  }

  /** The blocks call exactly these functions, and their values name no symbol. */
  ghost predicate CallsOnly(bs: seq<Block>, callees: set<string>) {
    Calls(bs) == callees && BareBlocks(bs)
  }

  lemma CallsBoth(a: seq<Block>, b: seq<Block>, x: set<string>, y: set<string>)
    requires CallsOnly(a, x) && CallsOnly(b, y)
    ensures CallsOnly(a + b, x + y)
  {
    hide Calls, BareBlock;
    CallsAppend(a, b);
  }

  lemma CallsNone(bs: seq<Block>)
    requires BareBlocks(bs) && forall b :: b in bs ==> !b.CallB?
    ensures CallsOnly(bs, {})
  {
    hide Calls, BareBlocks;
    NoCalls(bs);
  }

  lemma {:induction false} ConvBare(e: Expr, vi: nat)
    ensures Bare(ConvValue(e, vi))
  {
    if e.Bin? {
      ConvBare(e.left, vi);
      ConvBare(e.right, vi + Temps(e.left));
    }
  }

  lemma {:induction false} ConvArgsBare(args: seq<Expr>, vi: nat)
    ensures forall i :: 0 <= i < |args| ==> Bare(ConvArgs(args, vi)[i])
  {
    hide Bare, ConvValue;
    if args != [] {
      ConvBare(args[0], vi);
      ConvArgsBare(args[1..], vi + Temps(args[0]));
    }
  }

  lemma {:induction false} ConvCalls(e: Expr, vi: nat)
    ensures CallsOnly(ConvBlocks(e, vi), Callees(e))
    decreases e, 1
  {
    hide CallsOnly, ConvValue, ConvArgs, Temps;
    match e
    case Bin(_, l, r) =>
      ConvCalls(l, vi);
      ConvCalls(r, vi + Temps(l));
      CallsBoth(ConvBlocks(l, vi), ConvBlocks(r, vi + Temps(l)), Callees(l), Callees(r));
    case CallE(f, args) =>
      ConvArgsCalls(args, vi + 1);
      CallPart(f, args, vi + 1, [StoreResult(Temp(vi))]);
      CallsBoth(ConvArgsBlocks(args, vi + 1), [CallB(f, ConvArgs(args, vi + 1))] + [StoreResult(Temp(vi))],
                CalleesArgs(args), {f});
      assert ConvBlocks(e, vi) ==
             ConvArgsBlocks(args, vi + 1) + ([CallB(f, ConvArgs(args, vi + 1))] + [StoreResult(Temp(vi))]);
    case _ => CallsNone([]);
  }

  lemma CallPart(f: string, args: seq<Expr>, vi: nat, rest: seq<Block>)
    requires rest == [] || (|rest| == 1 && rest[0].StoreResult?)
    ensures CallsOnly([CallB(f, ConvArgs(args, vi))] + rest, {f})
  {
    hide Bare, ConvArgs, Calls;
    ConvArgsBare(args, vi);
    OneCall(f, ConvArgs(args, vi), rest);
  }

  lemma {:induction false} ConvArgsCalls(args: seq<Expr>, vi: nat)
    ensures CallsOnly(ConvArgsBlocks(args, vi), CalleesArgs(args))
    decreases args, 0
  {
    hide CallsOnly, ConvValue, Temps;
    if args == [] {
      CallsNone([]);
    } else {
      ConvCalls(args[0], vi);
      ConvArgsCalls(args[1..], vi + Temps(args[0]));
      CallsBoth(ConvBlocks(args[0], vi), ConvArgsBlocks(args[1..], vi + Temps(args[0])), Callees(args[0]), CalleesArgs(args[1..]));
    }
  }

  lemma StoreCalls(x: string, e: Expr, vi: nat)
    ensures CallsOnly([StoreB(PlainPlace(User(x)), ConvValue(e, vi))], {})
  {
    hide Bare;
    ConvBare(e, vi);
    CallsNone([StoreB(PlainPlace(User(x)), ConvValue(e, vi))]);
  }

  lemma IfCalls(st: Stmt, vi: nat, li: nat)
    requires st.If?
    requires CallsOnly(StmtsBlocks(st.body, vi + Temps(st.left) + Temps(st.right), li + 2), CalleesSs(st.body))
    ensures CallsOnly(StmtBlocks(st, vi, li), CalleesS(st))
  {
    hide ConvBlocks, StmtsBlocks, LLabel, Temps, ConvValue, CallsOnly, Callees, CalleesSs;
    var vr := vi + Temps(st.left);
    var A, B := ConvBlocks(st.left, vi), ConvBlocks(st.right, vr);
    var j := [CmpB(ConvValue(st.left, vi), ConvValue(st.right, vr)),
              JmpB(if st.equal then Eq else Neq, LLabel(li)), JmpB(Always, LLabel(li + 1)), LabelB(LLabel(li))];
    var S, e := StmtsBlocks(st.body, vr + Temps(st.right), li + 2), [LabelB(LLabel(li + 1))];
    ConvCalls(st.left, vi);
    ConvCalls(st.right, vr);
    ConvBare(st.left, vi);
    ConvBare(st.right, vr);
    TestCalls(j);
    CallsNone(e);
    CallsBoth(A, B, Callees(st.left), Callees(st.right));
    CallsBoth(S, e, CalleesSs(st.body), {});
    CallsBoth(j, S + e, {}, CalleesSs(st.body) + {});
    CallsBoth(A + B, j + (S + e), Callees(st.left) + Callees(st.right), {} + (CalleesSs(st.body) + {}));
    assert {} + (CalleesSs(st.body) + {}) == CalleesSs(st.body);
  }

  lemma TestCalls(j: seq<Block>)
    requires |j| == 4 && j[0].CmpB? && Bare(j[0].left) && Bare(j[0].right) && j[1].JmpB? && j[2].JmpB? && j[3].LabelB?
    ensures CallsOnly(j, {})
  {
    hide Bare;
    CallsNone(j);
  }

  lemma HeadCalls(x: string, from: Expr, vi: nat, li: nat)
    ensures CallsOnly(ForHead(x, from, vi, li), Callees(from))
  {
    hide ConvBlocks, LLabel, ConvValue, CallsOnly, Callees;
    StoreCalls(x, from, vi);
    ConvCalls(from, vi);
    CallsNone([LabelB(LLabel(li))]);
    var s := [StoreB(PlainPlace(User(x)), ConvValue(from, vi))];
    CallsBoth(s, ConvBlocks(from, vi), {}, Callees(from));
    CallsBoth(s + ConvBlocks(from, vi), [LabelB(LLabel(li))], {} + Callees(from), {});
    assert {} + Callees(from) + {} == Callees(from);
  }

  lemma TailCalls(x: string, to: Expr, vi: nat, li: nat, end: nat)
    ensures CallsOnly(ForTail(x, to, vi, li, end), Callees(to))
  {
    hide ConvBlocks, LLabel, ELabel, ConvValue, CallsOnly, Callees;
    var s := [StoreB(PlainPlace(User(x)), Op(OpAdd, LocalValue(User(x)), Imm(1))),
              CmpB(LocalValue(User(x)), ConvValue(to, vi))];
    var z := [JmpB(Eq, ELabel(end)), JmpB(Always, LLabel(li)), LabelB(ELabel(end))];
    ConvBare(to, vi);
    StepCalls(s, x, ConvValue(to, vi));
    ConvCalls(to, vi);
    CallsNone(z);
    CallsBoth(s, ConvBlocks(to, vi), {}, Callees(to));
    CallsBoth(s + ConvBlocks(to, vi), z, {} + Callees(to), {});
    assert {} + Callees(to) + {} == Callees(to);
  }

  lemma StepCalls(s: seq<Block>, x: string, v: Value)
    requires Bare(v)
    requires s == [StoreB(PlainPlace(User(x)), Op(OpAdd, LocalValue(User(x)), Imm(1))), CmpB(LocalValue(User(x)), v)]
    ensures CallsOnly(s, {})
  {
    assert Bare(LocalValue(User(x))) && Bare(Imm(1));
    CallsNone(s);
  }

  lemma ForCalls(st: Stmt, vi: nat, li: nat)
    requires st.For? && CallsOnly(StmtsBlocks(st.body, vi + Temps(st.from), li + 1), CalleesSs(st.body))
    ensures CallsOnly(StmtBlocks(st, vi, li), CalleesS(st))
  {
    hide StmtsBlocks, Temps, TempsSs, LabelsSs, CallsOnly, ForHead, ForTail, Callees, CalleesSs;
    var vb := vi + Temps(st.from);
    var vt, end := vb + TempsSs(st.body), li + 1 + LabelsSs(st.body);
    var S, T := StmtsBlocks(st.body, vb, li + 1), ForTail(st.x, st.to, vt, li, end);
    HeadCalls(st.x, st.from, vi, li);
    TailCalls(st.x, st.to, vt, li, end);
    CallsBoth(S, T, CalleesSs(st.body), Callees(st.to));
    CallsBoth(ForHead(st.x, st.from, vi, li), S + T, Callees(st.from), CalleesSs(st.body) + Callees(st.to));
    assert Callees(st.from) + (CalleesSs(st.body) + Callees(st.to)) == CalleesS(st);
  }

  lemma PlainCalls(st: Stmt, vi: nat, li: nat)
    requires !st.If? && !st.For?
    ensures CallsOnly(StmtBlocks(st, vi, li), CalleesS(st))
  {
    hide ConvBlocks, ConvArgsBlocks, ConvValue, ConvArgs, CallsOnly, Callees, CalleesArgs;
    match st
    case Decl(_) => CallsNone([]);
    case Assign(x, e) =>
      ConvCalls(e, vi);
      StoreCalls(x, e, vi);
      CallsBoth(ConvBlocks(e, vi), [StoreB(PlainPlace(User(x)), ConvValue(e, vi))], Callees(e), {});
      assert Callees(e) + {} == Callees(e);
    case Return(None) => CallsNone([JmpB(Always, EXIT)]);
    case Return(Some(e)) =>
      var z := [StoreReturn(ConvValue(e, vi)), JmpB(Always, EXIT)];
      ConvCalls(e, vi);
      ConvBare(e, vi);
      CallsNone(z);
      CallsBoth(ConvBlocks(e, vi), z, Callees(e), {});
      assert Callees(e) + {} == Callees(e);
    case CallS(f, args) =>
      ConvArgsCalls(args, vi);
      CallPart(f, args, vi, []);
      assert [CallB(f, ConvArgs(args, vi))] + [] == [CallB(f, ConvArgs(args, vi))];
      CallsBoth(ConvArgsBlocks(args, vi), [CallB(f, ConvArgs(args, vi))], CalleesArgs(args), {f});
  }

  lemma {:induction false} StmtCalls(st: Stmt, vi: nat, li: nat)
    ensures CallsOnly(StmtBlocks(st, vi, li), CalleesS(st))
    decreases st, 1
  {
    hide StmtBlocks, StmtsBlocks, CallsOnly, CalleesS;
    match st
    case If(_, _, _, body) =>
      StmtsCalls(body, vi + Temps(st.left) + Temps(st.right), li + 2);
      IfCalls(st, vi, li);
    case For(_, _, _, body) =>
      StmtsCalls(body, vi + Temps(st.from), li + 1);
      ForCalls(st, vi, li);
    case _ => PlainCalls(st, vi, li);
  }

  /** The code of a statement list calls exactly the functions its calls name. */
  lemma {:induction false} StmtsCalls(ss: seq<Stmt>, vi: nat, li: nat)
    ensures CallsOnly(StmtsBlocks(ss, vi, li), CalleesSs(ss))
    decreases ss, 0
  {
    hide StmtBlocks, CallsOnly, CalleesS;
    if ss == [] {
      CallsNone([]);
    } else {
      var vj, lj := vi + TempsS(ss[0]), li + Labels(ss[0]);
      StmtCalls(ss[0], vi, li);
      StmtsCalls(ss[1..], vj, lj);
      CallsBoth(StmtBlocks(ss[0], vi, li), StmtsBlocks(ss[1..], vj, lj), CalleesS(ss[0]), CalleesSs(ss[1..]));
    }
  }

  lemma FuncCalls(f: Func)
    ensures CallsOnly(FuncBlocks(f), CalleesSs(f.body))
  {
    hide StmtsBlocks, LocalBlocks, FuncSlots, CallsOnly, CalleesSs;
    var L, A, S := LocalBlocks(FuncSlots(f)), ArgBlocks(f.params), StmtsBlocks(f.body, 0, 0);
    var z := [LabelB(EXIT), Epilogue];
    StmtsCalls(f.body, 0, 0);
    LocalBlocksPlain(FuncSlots(f));
    PlainParts(L, A, z);
    CallsBoth(S, z, CalleesSs(f.body), {});
    CallsBoth(A, S + z, {}, CalleesSs(f.body) + {});
    CallsBoth(L, A + (S + z), {}, {} + (CalleesSs(f.body) + {}));
    CallsBoth([Preamble], L + (A + (S + z)), {}, {} + ({} + (CalleesSs(f.body) + {})));
    assert {} + ({} + ({} + (CalleesSs(f.body) + {}))) == CalleesSs(f.body);
  }

  lemma PlainParts(l: seq<Block>, a: seq<Block>, z: seq<Block>)
    requires (forall b :: b in l ==> b.LocalB?) && (forall i :: 0 <= i < |a| ==> a[i].StoreArg?) && z == [LabelB(EXIT), Epilogue]
    ensures CallsOnly(l, {}) && CallsOnly(a, {}) && CallsOnly(z, {}) && CallsOnly([Preamble], {})
  {
    CallsNone(l);
    CallsNone(a);
    CallsNone(z);
    CallsNone([Preamble]);
  }

  // Whole programs --------------------------------------------------------------------------------

  lemma {:induction false} NamedIs(bs: seq<Block>)
    ensures forall s :: s in AllNamed(bs) <==> s in Calls(bs) || exists b :: b in bs && b.JmpB? && s == "@" + b.dest
  {
    if bs != [] {
      NamedIs(bs[1..]);
      forall s ensures s in AllNamed(bs) <==> s in Calls(bs) || exists b :: b in bs && b.JmpB? && s == "@" + b.dest {
        if b :| b in bs && b.JmpB? && s == "@" + b.dest {
          assert b == bs[0] || b in bs[1..];
        }
        if b :| b in bs[1..] && b.JmpB? && s == "@" + b.dest {
          assert b in bs;
        }
      }
    }
  }

  /** The symbols of a function's code: its callees, and labels it places. */
  lemma FuncSymbols(o: Options, f: Func, s: string)
    ensures s in Symbols(FuncLines(o, f)) ==> s in CalleesSs(f.body) || s in LineLabels(FuncLines(o, f))
    ensures s in CalleesSs(f.body) ==> s in Symbols(FuncLines(o, f))
  {
    hide EmitBlocks, FuncBlocks, FuncLayout, LineLabels, AllNamed, Calls, BareBlocks, CalleesSs, Symbols;
    var bs := FuncBlocks(f);
    FuncCalls(f);
    NamedIs(bs);
    BlocksSymbols(o, FuncLayout(f), bs);
    SymbolsAppend(EmitBlocks(o, FuncLayout(f), bs), [Ins(Ret)]);
    RetSymbols();
    FuncLabels(o, f);
  }

  lemma RetSymbols()
    ensures Symbols([Ins(Ret)]) == {}
  {
  }

  lemma {:induction false} ProgramScoped(o: Options, p: Program, scope: string)
    requires GoodProgram(p) && forall f :: f in p ==> FitsFunc(o, f)
    ensures Scoped(ProgramAsm(o, p), scope)
    decreases |p|
  {
    hide FuncLines, FitsFunc, GoodFunc, LineLabels, ExactLines, LocalLabels, ToAsm;
    if p != [] {
      var rest := ProgramAsm(o, p[1..]);
      ProgramScoped(o, p[1..], p[0].name);
      FuncFits(o, p[0]);
      NamesFit(p);
      LabelsLocal(o, p[0]);
      BodyScoped(FuncLines(o, p[0]), rest, p[0].name);
      HeadScoped(p[0].name, ToAsm(FuncLines(o, p[0])) + rest, scope);
      assert ProgramAsm(o, p) == [AExport(p[0].name), ALabel(p[0].name)] + (ToAsm(FuncLines(o, p[0])) + rest);
    }
  }

  lemma LabelsLocal(o: Options, f: Func)
    ensures LocalLabels(FuncLines(o, f))
  {
    hide LineLabels, FuncLines;
    FuncLabels(o, f);
  }

  lemma HeadScoped(name: string, lines: seq<AsmLine>, scope: string)
    requires name != "" && name[0] != '@' && Scoped(lines, name)
    ensures Scoped([AExport(name), ALabel(name)] + lines, scope)
  {
    var all := [AExport(name), ALabel(name)] + lines;
    assert all[0] == AExport(name) && all[1..] == [ALabel(name)] + lines;
    assert all[1..][0] == ALabel(name) && all[1..][1..] == lines;
    assert Scoped(all[1..], scope);
  }

  /** Every symbol of the function, qualified, is one of the names. */
  ghost predicate FuncResolves(o: Options, f: Func, names: seq<string>) {
    forall s :: s in Symbols(FuncLines(o, f)) ==> Qualify(f.name, s) in names
  }

  lemma {:induction false} ProgramResolves(o: Options, p: Program, scope: string, names: seq<string>)
    requires GoodProgram(p)
    ensures Resolvable(ProgramAsm(o, p), scope, names) <==> forall f :: f in p ==> FuncResolves(o, f, names)
    decreases |p|
  {
    hide FuncLines, GoodFunc, LineLabels, LocalLabels, ToAsm, FuncResolves;
    if p != [] {
      var rest := ProgramAsm(o, p[1..]);
      var body := ToAsm(FuncLines(o, p[0])) + rest;
      NamesFit(p);
      LabelsLocal(o, p[0]);
      ProgramResolves(o, p[1..], p[0].name, names);
      BodyResolvable(FuncLines(o, p[0]), rest, p[0].name, names);
      HeadResolvable(p[0].name, body, scope, names);
      assert ProgramAsm(o, p) == [AExport(p[0].name), ALabel(p[0].name)] + body;
      ResolvesIs(o, p[0], names);
      assert forall f :: f in p <==> f == p[0] || f in p[1..];
    }
  }

  lemma ResolvesIs(o: Options, f: Func, names: seq<string>)
    ensures FuncResolves(o, f, names) <==> forall s :: s in Symbols(FuncLines(o, f)) ==> Qualify(f.name, s) in names
  {
  }

  lemma HeadResolvable(name: string, lines: seq<AsmLine>, scope: string, names: seq<string>)
    requires name != "" && name[0] != '@'
    ensures Resolvable([AExport(name), ALabel(name)] + lines, scope, names) <==> Resolvable(lines, name, names)
  {
    var all := [AExport(name), ALabel(name)] + lines;
    assert all[0] == AExport(name) && all[1..] == [ALabel(name)] + lines;
    assert all[1..][0] == ALabel(name) && all[1..][1..] == lines;
    assert Resolvable(all, scope, names) == Resolvable(all[1..], scope, names);
  }

  /** A program defines its functions' names, and their labels under them. */
  lemma {:induction false} Defined(o: Options, p: Program, f: Func, scope: string)
    requires GoodProgram(p) && f in p
    ensures f.name in DefinedNames(ProgramAsm(o, p), scope)
    ensures forall l :: l in LineLabels(FuncLines(o, f)) ==> f.name + l in DefinedNames(ProgramAsm(o, p), scope)
    decreases |p|
  {
    hide FuncLines, GoodFunc, LineLabels, ToAsm, DefinedNames, FuncAsm;
    NamesFit(p);
    var rest := ProgramAsm(o, p[1..]);
    var own := FuncNames(o, p[0], rest, scope);
    if p[0] == f {
      OwnDefined(f.name, LineLabels(FuncLines(o, f)));
    } else {
      Defined(o, p[1..], f, p[0].name);
    }
  }

  lemma OwnDefined(name: string, xs: seq<string>)
    ensures name in [name] + Prefixed(name, xs)
    ensures forall l :: l in xs ==> name + l in [name] + Prefixed(name, xs)
  {
    var all := [name] + Prefixed(name, xs);
    assert all[0] == name;
    forall l | l in xs ensures name + l in all {
      var i :| 0 <= i < |xs| && xs[i] == l;
      assert all[i + 1] == Prefixed(name, xs)[i] == name + l;
    }
  }

  /** A plain name a program defines is a function's. */
  lemma DefinedFunc(o: Options, p: Program, c: string)
    requires Compilable(o, p) && PlainName(c) && c in DefinedNames(ProgramAsm(o, p), "")
    ensures FindFunc(p, c).Some?
  {
    hide DefinedNames, ProgramAsm, FitsFunc, GoodFunc;
    NamesFit(p);
    ProgramNames(o, p, "");
    var i :| 0 <= i < |p| && OwnedBy(c, p[i].name);
    assert c == p[i].name;
  }

  lemma CalleeDefined(o: Options, p: Program, c: string)
    requires GoodProgram(p) && FindFunc(p, c).Some?
    ensures c in DefinedNames(ProgramAsm(o, p), "") && PlainName(c) && Qualify("", c) == c
    ensures forall scope :: Qualify(scope, c) == c
  {
    hide DefinedNames, ProgramAsm, GoodFunc;
    var g := FindFunc(p, c).value;
    NamesFit(p);
    Defined(o, p, g, "");
  }

  /** No name with an '@' is called. */
  predicate PlainCallees(p: Program) {
    forall f, c :: f in p && c in CalleesSs(f.body) ==> PlainName(c)
  }

  lemma LabelResolves(o: Options, p: Program, f: Func, s: string)
    requires GoodProgram(p) && f in p && s in LineLabels(FuncLines(o, f))
    ensures Qualify(f.name, s) in DefinedNames(ProgramAsm(o, p), "")
  {
    hide DefinedNames, ProgramAsm, GoodFunc, LineLabels, FuncLines;
    FuncLabels(o, f);
    Defined(o, p, f, "");
  }

  lemma CompleteResolves(o: Options, p: Program, f: Func)
    requires Compilable(o, p) && Complete(p) && f in p
    ensures FuncResolves(o, f, DefinedNames(ProgramAsm(o, p), ""))
  {
    hide DefinedNames, ProgramAsm, GoodFunc, FitsFunc, LineLabels, FuncLines, CalleesSs, Symbols, Qualify;
    var names := DefinedNames(ProgramAsm(o, p), "");
    forall s | s in Symbols(FuncLines(o, f)) ensures Qualify(f.name, s) in names {
      FuncSymbols(o, f, s);
      if s in CalleesSs(f.body) {
        CalleeDefined(o, p, s);
      } else {
        LabelResolves(o, p, f, s);
      }
    }
  }

  lemma ResolvesComplete(o: Options, p: Program, f: Func, c: string)
    requires Compilable(o, p) && f in p && c in CalleesSs(f.body) && PlainName(c)
    requires FuncResolves(o, f, DefinedNames(ProgramAsm(o, p), ""))
    ensures FindFunc(p, c).Some?
  {
    hide DefinedNames, ProgramAsm, GoodFunc, FitsFunc, LineLabels, FuncLines, CalleesSs, Symbols;
    FuncSymbols(o, f, c);
    assert Qualify(f.name, c) == c;
    DefinedFunc(o, p, c);
  }

  /** The first pass takes every compiled program. */
  lemma CompiledTable(o: Options, p: Program)
    requires Compilable(o, p)
    ensures Table(ProgramAsm(o, p), START.At()).Some?
    ensures NamesOf(Table(ProgramAsm(o, p), START.At()).value) == DefinedNames(ProgramAsm(o, p), "")
  {
    hide Table, DefinedNames, ProgramAsm, GoodFunc, FitsFunc, CodeOnly, Scoped, Global1, NoDup;
    var names := DefinedNames(ProgramAsm(o, p), "");
    ProgramExact(o, p);
    ProgramScoped(o, p, "");
    NamesFit(p);
    ProgramNames(o, p, "");
    forall n | n in names ensures Global1(n) {
      var i :| 0 <= i < |p| && OwnedBy(n, p[i].name);
      OwnedGlobal(n, p[i].name);
    }
    assert [] + names == names;
    NoCode();
    TableAccepts(ProgramAsm(o, p), START.At());
    TableNames(ProgramAsm(o, p), START.At());
  }

  lemma OwnedGlobal(n: string, f: string)
    requires OwnedBy(n, f) && f != "" && f[0] != '@'
    ensures Global1(n)
  {
    if n != f {
      assert n[..|f|][0] == n[0];
    }
  }

  /**
   A compiled program assembles to a raw binary exactly when every function it calls is one
   of its own: no literal, label or jump of it is ever refused.
   */
  lemma CompiledAssembles(o: Options, p: Program)
    requires Compilable(o, p)
    ensures Complete(p) ==> Assemble1(ProgramAsm(o, p)).Some?
    ensures PlainCallees(p) && Assemble1(ProgramAsm(o, p)).Some? ==> Complete(p)
  {
    hide Table, Emit2, Run1, PatchAll, DefinedNames, ProgramAsm, Compilable, CodeOnly, Tame, FuncResolves, Encodable,
         Resolvable,
         CalleesSs, FindFunc;
    var lines := ProgramAsm(o, p);
    CompiledTable(o, p);
    CompilableIsEncodable(o, p);
    OnePassIsTwoPass(lines);
    IsGood(o, p);
    NoCode();
    EmitsIff(lines, START.At(), [], Table(lines, START.At()).value);
    ProgramResolves(o, p, "", DefinedNames(lines, ""));
    if Complete(p) {
      forall f | f in p ensures FuncResolves(o, f, DefinedNames(lines, "")) {
        CompleteResolves(o, p, f);
      }
    }
    if PlainCallees(p) && Assemble1(lines).Some? {
      forall f, c | f in p && c in CalleesSs(f.body) ensures FindFunc(p, c).Some? {
        ResolvesComplete(o, p, f, c);
      }
    }
  }

  lemma IsGood(o: Options, p: Program)
    requires Encodable(o, p)
    ensures GoodProgram(p) && CodeOnly(ProgramAsm(o, p))
  {
  }
}
