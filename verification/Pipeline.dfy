/**
 The whole pipeline: compiled, assembled into an object, read back by the linker, linked,
 and run by the CPU.
 */
module Pipeline {
  import opened Words
  import opened Machine
  import opened Images
  import opened Encoding
  import ByteBuffers
  import opened Assembly
  import opened ByteSim
  import opened Emit
  import opened FuncCode
  import opened Nodes
  import opened Checks
  import opened Interp
  import opened Convention
  import opened Simulation
  import opened Toolchain
  import opened Literals
  import opened Acceptance
  import opened LabelNames
  import opened Compile
  import opened Text
  import opened EndToEnd
  import opened Iof
  import opened Linking
  import opened LinkOutput
  import opened Objects
  import opened LinkAlone

  /** The state of the assembler between the instructions of pure code. */
  ghost predicate Steady(st: Asm) {
    st.pos == |st.code| && st.pos % 4 == 0 && st.origin.None? && PointsApart(st.links, st.pos)
  }

  lemma PointsMore(links: seq<LinkPoint>, more: seq<LinkPoint>, pos: nat)
    requires PointsApart(links, pos)
    requires more == [] || (|more| == 1 && pos <= more[0].offset <= pos + 2)
    ensures PointsApart(links + more, pos + 4)
  {
  }

  lemma NoPoints()
    ensures PointsApart([], 0)
  {
  }

  lemma StepSteady(st: Asm, line: AsmLine)
    requires Steady(st) && CodeLine(line) && Step1(st, line).Some?
    ensures Steady(Step1(st, line).value)
  {
    hide Encode, Exact, ByteBuffers.InsertAt, PointsApart, Assembly.Bump;
    var t := Step1(st, line).value;
    if line.AIns? {
      FieldRange(line.i, st.values);
      PointsMore(st.links, Assembly.LinksOf(line, st.At()), st.pos);
      InsGrows(st, line.i);
    } else {
      assert t.links == st.links && t.code == st.code;
    }
  }

  lemma InsGrows(st: Asm, i: Instr)
    requires st.pos == |st.code| && st.pos % 4 == 0 && Step1(st, AIns(i)).Some?
    ensures var t := Step1(st, AIns(i)).value; |t.code| == st.pos + 4 == t.pos
  {
    hide Encode;
  }

  /** Pure code comes out with its link points apart, inside the code, and no origin. */
  lemma {:induction false} RunSteady(st: Asm, lines: seq<AsmLine>)
    requires Steady(st) && CodeOnly(lines) && Run1(st, lines).Some?
    ensures Steady(Run1(st, lines).value)
    decreases |lines|
  {
    hide Steady, Step1, CodeLine;
    if lines != [] {
      assert CodeLine(lines[0]);
      StepSteady(st, lines[0]);
      RunSteady(Step1(st, lines[0]).value, lines[1..]);
    }
  }

  lemma {:induction false} PatchedLookups(code: seq<u8>, links: seq<LinkPoint>, table: seq<LabelDef>)
    requires PatchAll(code, links, table).Some?
    ensures forall n :: 0 <= n < |links| ==> Lookup(table, links[n].symbol).Some?
    decreases |links|
  {
    hide Lookup, PatchOne;
    if links != [] {
      PatchedLookups(code, links[..|links| - 1], table);
    }
  }

  /** A compiled program, assembled, can be linked alone. */
  lemma CompiledAlone(o: Options, p: Program, st: Asm)
    requires Compilable(o, p) && Run1(START, ProgramAsm(o, p)) == Some(st) && PlainNames(st)
    requires PatchAll(st.code, st.links, st.labels).Some? && 0 < |st.code| < 0xffff
    ensures Alone(st)
  {
    hide Run1, CodeOnly, Compilable, PatchAll, ProgramAsm, PlainNames, PointsApart, Encodable, Tame;
    NoPoints();
    CompilableIsEncodable(o, p);
    IsCodeOnly(o, p);
    RunSteady(START, ProgramAsm(o, p));
    PatchedLookups(st.code, st.links, st.labels);
  }

  lemma IsCodeOnly(o: Options, p: Program)
    requires Encodable(o, p)
    ensures CodeOnly(ProgramAsm(o, p))
  {
  }

  /** The bytes an image stands for. */
  ghost predicate Depicts(out: Linking.Image, bytes: seq<u8>) {
    |out| == |bytes| && forall a :: 0 <= a < |out| ==> out[a] == Some(bytes[a])
  }

  // Names as the object format stores them ---------------------------------------------------

  lemma {:induction false} DecPlain(n: nat)
    ensures OneByte(Dec(n))
  {
    DigitValue(n % 10);
    if n >= 10 {
      DecPlain(n / 10);
    }
  }

  lemma PlainConcat(s: string, t: string)
    requires OneByte(s) && OneByte(t)
    ensures OneByte(s + t)
  {
  }

  lemma LettersPlain()
    ensures OneByte("@") && OneByte("L") && OneByte("E") && OneByte(EXIT)
  {
  }

  lemma NumberPlain(n: nat)
    ensures OneByte(LLabel(n)) && OneByte(ELabel(n))
  {
    hide OneByte;
    LettersPlain();
    DecPlain(n);
    PlainConcat("L", Dec(n));
    PlainConcat("E", Dec(n));
  }

  /** The labels of a function have names the object format can store. */
  lemma LabelsPlain(o: Options, f: Func)
    ensures forall l :: l in LineLabels(FuncLines(o, f)) ==> OneByte(l)
  {
    hide OneByte, StmtsBlocks, EmitBlocks, FuncLayout, FuncBlocks, BlockLabels, LineLabels, LLabel, ELabel;
    var S := StmtsBlocks(f.body, 0, 0);
    FuncBlockLabels(f);
    StmtsLabels(f.body, 0, 0);
    EmittedLabels(o, FuncLayout(f), FuncBlocks(f));
    LineLabelsAppend(EmitBlocks(o, FuncLayout(f), FuncBlocks(f)), [Ins(Ret)]);
    RetLabels();
    LettersPlain();
    var xs := BlockLabels(S) + [EXIT];
    forall l | l in Locals(xs) ensures OneByte(l) {
      var i :| 0 <= i < |xs| && Locals(xs)[i] == l;
      if i < |BlockLabels(S)| {
        assert xs[i] in BlockLabels(S);
        var n: nat :| xs[i] == LLabel(n) || xs[i] == ELabel(n);
        NumberPlain(n);
      }
      PlainConcat("@", xs[i]);
    }
  }

  lemma {:induction false} DefinedPlain(o: Options, p: Program, scope: string)
    requires GoodProgram(p) && forall f :: f in p ==> OneByte(f.name)
    ensures forall n :: n in DefinedNames(ProgramAsm(o, p), scope) ==> OneByte(n)
    decreases |p|
  {
    hide FuncLines, GoodFunc, LineLabels, FuncAsm, OneByte, DefinedNames;
    if p == [] {
      NothingDefined(scope);
    } else {
      var rest := ProgramAsm(o, p[1..]);
      Toolchain.NamesFit(p);
      var own := FuncNames(o, p[0], rest, scope);
      var xs := LineLabels(FuncLines(o, p[0]));
      LabelsPlain(o, p[0]);
      DefinedPlain(o, p[1..], p[0].name);
      forall n | n in own ensures OneByte(n) {
        var i :| 0 <= i < |own| && own[i] == n;
        if i > 0 {
          assert n == p[0].name + xs[i - 1] && xs[i - 1] in xs;
          PlainConcat(p[0].name, xs[i - 1]);
        }
      }
    }
  }

  lemma NothingDefined(scope: string)
    ensures DefinedNames([], scope) == []
  {
  }

  /** Exports come from export lines. */
  lemma {:induction false} RunExports(st: Asm, lines: seq<AsmLine>)
    requires Run1(st, lines).Some?
    ensures forall e :: e in Run1(st, lines).value.exports ==> e in st.exports || AExport(e) in lines
    decreases |lines|
  {
    hide Step1;
    if lines != [] {
      StepExports(st, lines[0]);
      RunExports(Step1(st, lines[0]).value, lines[1..]);
    }
  }

  lemma StepExports(st: Asm, line: AsmLine)
    requires Step1(st, line).Some?
    ensures forall e :: e in Step1(st, line).value.exports ==> e in st.exports || line == AExport(e)
  {
    hide Encode, ByteBuffers.InsertAt, Assembly.Bump;
  }

  lemma {:induction false} ProgramExports(o: Options, p: Program, e: string)
    requires AExport(e) in ProgramAsm(o, p)
    ensures exists f :: f in p && f.name == e
  {
    hide FuncLines;
    NoExports(FuncLines(o, p[0]), e);
    if e == p[0].name {
      assert p[0] in p;
    } else {
      assert AExport(e) in ProgramAsm(o, p[1..]);
      ProgramExports(o, p[1..], e);
      var f :| f in p[1..] && f.name == e;
      assert f in p;
    }
  }

  lemma {:induction false} NoExports(code: seq<Line>, e: string)
    ensures AExport(e) !in ToAsm(code)
  {
    if code != [] {
      NoExports(code[1..], e);
    }
  }

  lemma {:induction false} ExportsFound(exports: seq<string>, labels: seq<LabelDef>)
    requires forall e :: e in exports ==> Lookup(labels, e).Some?
    ensures ExportEntries(exports, labels).Some?
    decreases |exports|
  {
    hide Lookup, Ascii;
    if exports != [] {
      assert exports[|exports| - 1] in exports;
      ExportsFound(exports[..|exports| - 1], labels);
    }
  }

  /** What the assembler holds of a compiled program when it has read it all. */
  function AssembledState(o: Options, p: Program): Asm {
    match Run1(START, ProgramAsm(o, p))
    case Some(st) => st
    case None => START
  }

  /** Its labels are the program's names, and everything it exports or links is one of them. */
  lemma StateNames(o: Options, p: Program)
    requires Buildable(o, p)
    ensures var st, names := AssembledState(o, p), DefinedNames(ProgramAsm(o, p), "");
            && Run1(START, ProgramAsm(o, p)) == Some(st) && NamesOf(st.labels) == names
            && PatchAll(st.code, st.links, st.labels) == Some(Binary(o, p))
            && (forall n :: 0 <= n < |st.links| ==> st.links[n].symbol in names)
            && (forall e :: e in st.exports ==> e in names)
  {
    hide Run1, Table, PatchAll, ProgramAsm, DefinedNames, NamesOf, Tame, Settle, Compilable, Complete, Lookup, Below,
         GoodProgram;
    var lines := ProgramAsm(o, p);
    NoFunc(o, p);
    CompilableIsEncodable(o, p);
    CompiledTable(o, p);
    IsGood(o, p);
    StartBelow();
    LabelsAgree(START, lines, false);
    SettleEmpty(lines, 0);
    var st := Run1(START, lines).value;
    PatchedLookups(st.code, st.links, st.labels);
    forall n | 0 <= n < |st.links| ensures st.links[n].symbol in DefinedNames(lines, "") {
      LookupIff(st.labels, st.links[n].symbol);
    }
    RunExports(START, lines);
    forall e | e in st.exports ensures e in DefinedNames(lines, "") {
      ProgramExports(o, p, e);
      var f :| f in p && f.name == e;
      Defined(o, p, f, "");
    }
  }

  lemma NoFunc(o: Options, p: Program)
    requires Buildable(o, p)
    ensures Assemble1(ProgramAsm(o, p)) == Some(Binary(o, p)) && Compilable(o, p)
  {
    hide Compilable, Complete, Assemble1, ProgramAsm;
    BinaryIs(o, p, Func("", [], []));
  }

  lemma StartBelow()
    ensures Below(START.labels, START.pos, false) && START.labels == [] && START.pos == 0
  {
  }

  /** The object the assembler writes of a compiled program: nothing in it is refused. */
  lemma StatePlain(o: Options, p: Program)
    requires Buildable(o, p) && forall f :: f in p ==> OneByte(f.name)
    ensures PlainNames(AssembledState(o, p)) && ObjectOps(AssembledState(o, p)).Some?
  {
    hide Run1, Table, PatchAll, ProgramAsm, DefinedNames, Tame, Settle, Compilable, Complete, Lookup, OneByte,
         GoodProgram, NamesOf;
    var st := AssembledState(o, p);
    StateNames(o, p);
    NoFunc(o, p);
    CompilableIsEncodable(o, p);
    IsGood(o, p);
    DefinedPlain(o, p, "");
    LabelNamesIn(st.labels);
    forall e | e in st.exports ensures Lookup(st.labels, e).Some? {
      LookupIff(st.labels, e);
    }
    ExportsFound(st.exports, st.labels);
    assert forall i :: 0 <= i < |st.exports| ==> st.exports[i] in st.exports;
  }

  lemma LabelNamesIn(labels: seq<LabelDef>)
    ensures forall i :: 0 <= i < |labels| ==> labels[i].name in NamesOf(labels)
  {
    forall i | 0 <= i < |labels| ensures labels[i].name in NamesOf(labels) {
      assert NamesOf(labels)[i] == labels[i].name;
    }
  }

  /** An object file section of the compiled program, with a valid builder run behind it. */
  ghost predicate ObjectOf(o: Options, p: Program, other: u16, base: Bytes) {
    var st := AssembledState(o, p);
    && (forall f :: f in p ==> OneByte(f.name)) && 0 < |st.code| < 0xffff
    && (ObjectOps(st).Some? ==> Iof.Holds(AddAll(ObjectStart(st, other), ObjectOps(st).value), base))
  }

  /**
   Compiler, assembler, object format, linker and CPU: the image the linker makes of the
   object of a compiled program, loaded at address 0, computes what the program means.
   */
  lemma LinkedProgramRuns(o: Options, p: Program, f: Func, args: seq<u16>, other: u16, base: Bytes, s: State, fuel: nat)
    returns (out: Linking.Image, n: nat, t: State)
    requires Buildable(o, p) && f in p && ObjectOf(o, p, other, base) && AtEntry(o, p, f, args, s)
    requires CallF(p, f.name, args, Stack(o, p, s), fuel).Some?
    ensures LoadSection(base).Some? && LinkAll([LoadSection(base).value]) == Good(out) && Depicts(out, Binary(o, p))
    ensures RunBytes(s, n) == Next(t) && ReturnsTo(s, t)
    ensures TraceBytes(ProgramMarks(o, p), s, n) == TraceF(p, f.name, args, Stack(o, p, s), fuel)
    ensures var rv := CallF(p, f.name, args, Stack(o, p, s), fuel).value; rv.Some? ==> t.regs.g[0] == rv.value
  {
    hide *;
    n, t := ProgramRuns(o, p, f, args, s, fuel);
    out := ObjectLinks(o, p, other, base);
  }

  /** The linked object of a compiled program is its raw binary. */
  lemma ObjectLinks(o: Options, p: Program, other: u16, base: Bytes) returns (out: Linking.Image)
    requires Buildable(o, p) && ObjectOf(o, p, other, base)
    ensures LoadSection(base).Some? && LinkAll([LoadSection(base).value]) == Good(out) && Depicts(out, Binary(o, p))
  {
    hide Compilable, Run1, PlainNames, ObjectOps, Iof.Holds, AddAll, Assemble1, LoadSection, LinkAll, Alone, PatchAll,
         ExportEntries, SectionOf, ProgramAsm, AddressOf, AssembledState, Binary, DefinedNames, OneByte, Complete;
    var st := AssembledState(o, p);
    StateNames(o, p);
    StatePlain(o, p);
    CompiledAlone(o, p, st);
    var exports := NoOrigin(st);
    ObjectLoads(st, other, base);
    out := LinkedAloneIsRaw(st, exports, other, Binary(o, p));
  }

  lemma NoOrigin(st: Asm) returns (exports: seq<Entry>)
    requires Alone(st) && ObjectOps(st).Some?
    ensures st.origin.None? && ExportEntries(st.exports, st.labels) == Some(exports)
  {
    hide PointsApart, PlainNames;
    exports := ExportEntries(st.exports, st.labels).value;
  }
}
