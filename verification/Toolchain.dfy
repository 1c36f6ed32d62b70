/**
 From source program to running bytes: the assembled image of a compiled program,
 loaded at address 0 and run by the fetch/decode loop, does what the interpreter says.
 */
module Toolchain {
  import opened Words
  import opened Machine
  import opened Images
  import opened Encoding
  import opened ByteBuffers
  import opened Assembly
  import opened ByteSim
  import opened Emit
  import opened Nodes
  import opened Compile
  import opened FuncCode
  import opened Checks
  import opened Interp
  import opened LabelNames
  import opened Convention
  import opened Simulation
  import opened Traces

  // The assembly text of a program -------------------------------------------------

  function ToAsm(code: seq<Line>): seq<AsmLine> {
    if code == [] then []
    else [match code[0] case Label(n) => ALabel(n) case Ins(i) => AIns(i)] + ToAsm(code[1..])
  }

  function FuncAsm(o: Options, f: Func): seq<AsmLine> {
    [AExport(f.name), ALabel(f.name)] + ToAsm(FuncLines(o, f))
  }

  function ProgramAsm(o: Options, p: Program): seq<AsmLine> {
    if p == [] then [] else FuncAsm(o, p[0]) + ProgramAsm(o, p[1..])
  }

  // Addresses ------------------------------------------------------------------------

  /** The address of every label; the first of a name counts. */
  function EnvOf(table: seq<LabelDef>): (r: map<string, u16>)
    ensures forall n :: n in r <==> Lookup(table, n).Some?
    ensures forall n :: n in r ==> r[n] == Wrap(Lookup(table, n).value)
  {
    if table == [] then map[]
    else EnvOf(table[1..])[table[0].name := Wrap(table[0].offset)]
  }

  /** Every entry of `part` is what looking its name up in `table` gives. */
  ghost predicate Honest(part: seq<LabelDef>, table: seq<LabelDef>) {
    forall i :: 0 <= i < |part| ==> Lookup(table, part[i].name) == Some(part[i].offset)
  }

  lemma {:induction false} HonestSelf(table: seq<LabelDef>)
    requires NoDup(NamesOf(table))
    ensures Honest(table, table)
  {
    if table != [] {
      var rest := table[1..];
      forall i, j | 0 <= i < j < |rest| ensures NamesOf(rest)[i] != NamesOf(rest)[j] {
        assert NamesOf(rest)[i] == NamesOf(table)[i + 1] && NamesOf(rest)[j] == NamesOf(table)[j + 1];
      }
      HonestSelf(rest);
      forall i | 0 <= i < |table| ensures Lookup(table, table[i].name) == Some(table[i].offset) {
        if i > 0 {
          assert NamesOf(table)[0] != NamesOf(table)[i];
          assert rest[i - 1] == table[i];
        }
      }
    }
  }

  // Code-only lines ------------------------------------------------------------------

  /** Lines of a program: exports, labels and instructions the bytes can hold exactly. */
  predicate CodeLine(line: AsmLine) {
    match line
    case AIns(i) => Exact(i) && (Symbolic(i) ==> i.src.name != "")
    case ALabel(_) => true
    case AExport(_) => true
    case _ => false
  }

  predicate CodeOnly(lines: seq<AsmLine>) {
    forall i :: 0 <= i < |lines| ==> CodeLine(lines[i])
  }

  /** The words the CPU decodes from a run of code bytes. */
  ghost predicate Decodes(bytes: seq<u8>, ins: seq<Instr>) {
    && |bytes| == 4 * |ins|
    && forall k :: 0 <= k < |ins| ==>
         Decode(bytes[4 * k], bytes[4 * k + 1], bytes[4 * k + 2], bytes[4 * k + 3]) == Some(ins[k])
  }

  /** A step of the second pass over an instruction line appends its four bytes. */
  lemma InsStep(i: Instr, c: Cursor, code: seq<u8>, table: seq<LabelDef>)
    requires CodeLine(AIns(i)) && c.values == map[] && c.pos == |code| && c.pos % 4 == 0
    requires Advance(c, AIns(i)).Some? && Emit2One(AIns(i), c, Some(code), table).Some?
    ensures var names := Names(EnvOf(table), c.last);
            var out := Emit2One(AIns(i), c, Some(code), table).value;
            && |out| == |code| + 4 && out[..|code|] == code
            && Decode(out[|code|], out[|code| + 1], out[|code| + 2], out[|code| + 3]) == Some(Resolve(names, i))
  {
    hide Decode, Exact, EnvOf;
    var names := Names(EnvOf(table), c.last);
    var e := EncOf(i, c.values);
    EncShape(i);
    var a: u16 := 0;
    if e.field > 0 {
      a := Wrap(Lookup(table, Qualify(c.last, e.symbol)).value);
    }
    assert Final(AIns(i), c, table) == Some(e.Patched(a));
    InsertAtEnd(code, e.Patched(a));
    EncodeDecode(names, i, a);
    assert ReadsBack(names, i, a);
  }

  lemma EncShape(i: Instr)
    requires Encode(i, map[]).Some? && (Symbolic(i) ==> i.src.name != "")
    ensures var e := EncOf(i, map[]);
            && (e.field > 0 <==> Symbolic(i)) && (Symbolic(i) ==> e.symbol == i.src.name)
            && 0 <= e.field <= 2
  {
    hide TwoCode, RegByte, LoByte, HiByte;
  }

  /** Lines of code only ever append: what is there stays, four bytes an instruction. */
  lemma {:induction false} CodePrefix(lines: seq<AsmLine>, c: Cursor, code: seq<u8>, table: seq<LabelDef>)
    requires CodeOnly(lines) && c.values == map[] && c.pos == |code| && c.pos % 4 == 0
    requires Emit2(lines, c, Some(code), table).Some?
    ensures var out := Emit2(lines, c, Some(code), table).value;
            |code| <= |out| && out[..|code|] == code && |out| % 4 == 0
    decreases |lines|
  {
    hide Decode, Encode, EnvOf, InsertAt, CodeLine, Final;
    if lines != [] {
      EmitSome(lines, c, code, table);
      var c1 := Advance(c, lines[0]).value;
      var code1 := Emit2One(lines[0], c, Some(code), table).value;
      CodeStep(lines, c, code, table);
      CodePrefix(lines[1..], c1, code1, table);
      var out := Emit2(lines, c, Some(code), table).value;
      assert out[..|code|] == out[..|code1|][..|code|] == code1[..|code|];
    }
  }

  lemma {:induction false} EmitNone(lines: seq<AsmLine>, c: Cursor, table: seq<LabelDef>)
    ensures Emit2(lines, c, None, table) == None
    decreases |lines|
  {
    if lines != [] && Advance(c, lines[0]).Some? {
      EmitNone(lines[1..], Advance(c, lines[0]).value, table);
    }
  }

  lemma EmitSome(lines: seq<AsmLine>, c: Cursor, code: seq<u8>, table: seq<LabelDef>)
    requires lines != [] && Emit2(lines, c, Some(code), table).Some?
    ensures Advance(c, lines[0]).Some? && Emit2One(lines[0], c, Some(code), table).Some?
  {
    hide Advance, Emit2One;
    if Advance(c, lines[0]).Some? && Emit2One(lines[0], c, Some(code), table).None? {
      EmitNone(lines[1..], Advance(c, lines[0]).value, table);
    }
  }

  lemma CodeStep(lines: seq<AsmLine>, c: Cursor, code: seq<u8>, table: seq<LabelDef>)
    requires CodeOnly(lines) && lines != [] && c.values == map[] && c.pos == |code| && c.pos % 4 == 0
    requires Advance(c, lines[0]).Some? && Emit2One(lines[0], c, Some(code), table).Some?
    ensures var c1, code1 := Advance(c, lines[0]).value, Emit2One(lines[0], c, Some(code), table).value;
            && CodeOnly(lines[1..]) && c1.values == map[] && c1.pos == |code1| && c1.pos % 4 == 0
            && |code| <= |code1| && code1[..|code|] == code
  {
    hide Decode, Encode, EnvOf, InsertAt, Final;
    assert CodeLine(lines[0]);
    if lines[0].AIns? {
      InsStep(lines[0].i, c, code, table);
    }
  }

  // Loading ----------------------------------------------------------------------------

  ghost predicate LocalLabels(code: seq<Line>) {
    forall l :: l in LineLabels(code) ==> IsLocal(l)
  }

  /** Where the second pass stands in the middle of a program. */
  ghost predicate Passing(rest: seq<AsmLine>, c: Cursor, code: seq<u8>, table: seq<LabelDef>, bytes: seq<u8>) {
    && CodeOnly(rest) && c.values == map[] && c.pos == |code| && c.pos % 4 == 0
    && Emit2(rest, c, Some(code), table) == Some(bytes)
    && Table(rest, c).Some? && Honest(Table(rest, c).value, table)
  }

  /** One line further. */
  lemma PassLine(line: AsmLine, rest: seq<AsmLine>, c: Cursor, code: seq<u8>, table: seq<LabelDef>, bytes: seq<u8>)
    returns (c1: Cursor, code1: seq<u8>)
    requires Passing([line] + rest, c, code, table, bytes)
    ensures Advance(c, line) == Some(c1) && Emit2One(line, c, Some(code), table) == Some(code1)
    ensures Passing(rest, c1, code1, table, bytes) && |code| <= |code1|
    ensures line.ALabel? ==> Lookup(table, Qualify(c.last, line.name)) == Some(c.pos)
  {
    hide Decode, Encode, EnvOf, InsertAt, Final, CodeLine, NextIns, Emit2One;
    var lines := [line] + rest;
    assert lines[0] == line && lines[1..] == rest;
    EmitSome(lines, c, code, table);
    CodeStep(lines, c, code, table);
    c1, code1 := Advance(c, line).value, Emit2One(line, c, Some(code), table).value;
    var t := Table(rest, c1).value;
    if line.ALabel? {
      LabelFirst(line, rest, c, c1);
      var whole := Table(lines, c).value;
      assert whole[0].offset == c.pos;
      assert forall i :: 0 <= i < |t| ==> t[i] == whole[i + 1];
    }
  }

  lemma LabelFirst(line: AsmLine, rest: seq<AsmLine>, c: Cursor, c1: Cursor)
    requires line.ALabel? && Advance(c, line) == Some(c1) && Table([line] + rest, c).Some?
    ensures Table(rest, c1).Some?
    ensures Table([line] + rest, c).value ==
            [LabelDef(Qualify(c.last, line.name), LabelAddr(rest, c.pos))] + Table(rest, c1).value
  {
    assert ([line] + rest)[1..] == rest;
  }

  /** The lines of a function body, wherever they stand in the program, end up loaded. */
  lemma {:induction false} LinesLoaded(code: seq<Line>, rest: seq<AsmLine>, c: Cursor, done: seq<u8>,
                                       table: seq<LabelDef>, bytes: seq<u8>, img: Image)
    returns (c1: Cursor, done1: seq<u8>)
    requires Passing(ToAsm(code) + rest, c, done, table, bytes)
    requires LocalLabels(code) && Decodes(bytes, img.ins) && |bytes| < 0x1_0000
    ensures Passing(rest, c1, done1, table, bytes) && c1.last == c.last
    ensures |done1| == |done| + 4 * Count(code)
    ensures Loaded(code, |done| / 4, img, Names(EnvOf(table), c.last))
    decreases |code|
  {
    hide Decode, Encode, EnvOf, InsertAt, Final, CodeLine, Emit2One, Emit2, Table, Passing, Decodes, Resolve;
    if code == [] {
      assert ToAsm(code) + rest == rest;
      c1, done1 := c, done;
    } else {
      var line := ToAsm([code[0]])[0];
      ToAsmHead(code, rest);
      var c0, done0 := PassLine(line, ToAsm(code[1..]) + rest, c, done, table, bytes);
      assert LocalLabels(code[1..]);
      c1, done1 := LinesLoaded(code[1..], rest, c0, done0, table, bytes, img);
      OneLoaded(code[0], ToAsm(code[1..]) + rest, c, done, c0, done0, table, bytes, img);
    }
  }

  lemma ToAsmHead(code: seq<Line>, rest: seq<AsmLine>)
    requires code != []
    ensures ToAsm(code) + rest == [ToAsm([code[0]])[0]] + (ToAsm(code[1..]) + rest)
  {
  }

  /** The step over one line, in terms of the image. */
  lemma OneLoaded(l: Line, rest: seq<AsmLine>, c: Cursor, done: seq<u8>, c1: Cursor, done1: seq<u8>,
                  table: seq<LabelDef>, bytes: seq<u8>, img: Image)
    requires Passing([ToAsm([l])[0]] + rest, c, done, table, bytes) && Passing(rest, c1, done1, table, bytes)
    requires Advance(c, ToAsm([l])[0]) == Some(c1) && Emit2One(ToAsm([l])[0], c, Some(done), table) == Some(done1)
    requires l.Label? ==> IsLocal(l.name) && Lookup(table, Qualify(c.last, l.name)) == Some(c.pos)
    requires Decodes(bytes, img.ins) && |bytes| < 0x1_0000
    ensures c1.last == c.last && |done| % 4 == 0
    ensures var names := Names(EnvOf(table), c.last);
            match l
            case Label(n) =>
              names.Full(n) in names.addr && names.addr[names.Full(n)] == |done| && done1 == done
            case Ins(i) =>
              |done1| == |done| + 4 && |done| / 4 < |img.ins| && img.ins[|done| / 4] == Resolve(names, i)
  {
    hide Decode, Encode, InsertAt, Final, NextIns, Resolve, Table, Honest;
    CodePrefix(rest, c1, done1, table);
    match l
    case Label(_) =>
    case Ins(i) =>
      assert CodeLine(([ToAsm([l])[0]] + rest)[0]);
      InsStep(i, c, done, table);
      var n := |done|;
      assert bytes[..n + 4] == done1;
      assert bytes[n] == done1[n] && bytes[n + 1] == done1[n + 1] && bytes[n + 2] == done1[n + 2] && bytes[n + 3] == done1[n + 3];
      var k := n / 4;
      assert 4 * k == n;
  }

  // Programs -----------------------------------------------------------------------------

  /** Programs whose every immediate fits the encoding, function names distinct. */
  ghost predicate Encodable(o: Options, p: Program) {
    && GoodProgram(p) && CodeOnly(ProgramAsm(o, p))
    && forall i, j :: 0 <= i < j < |p| ==> p[i].name != p[j].name
  }

  /** Every function of the rest of the program, wherever it stands, ends up loaded with its
      marks beside it. */
  lemma {:induction false} FuncsLoaded(o: Options, p: Program, c: Cursor, done: seq<u8>,
                                       table: seq<LabelDef>, bytes: seq<u8>, img: Image, before: seq<Mark>)
    requires Passing(ProgramAsm(o, p), c, done, table, bytes)
    requires forall f :: f in p ==> f.name != "" && f.name[0] != '@'
    requires Decodes(bytes, img.ins) && |bytes| < 0x1_0000 && |done| == 4 * |before|
    ensures forall f :: f in p ==> Placed(o, f, table, img, before + ProgramMarks(o, p))
    decreases |p|
  {
    hide Decode, Encode, EnvOf, InsertAt, Final, CodeLine, Emit2One, Emit2, Table, Passing, Decodes, Resolve, FuncLines,
         FuncMarks, Placed, Advance;
    if p != [] {
      var rest := ProgramAsm(o, p[1..]);
      var mine, later := FuncMarks(o, p[0]), ProgramMarks(o, p[1..]);
      var c1, done1 := OneFuncLoaded(o, p[0], rest, c, done, table, bytes, img, before, later);
      FuncsLoaded(o, p[1..], c1, done1, table, bytes, img, before + mine);
      assert before + mine + later == before + (mine + later) == before + ProgramMarks(o, p);
      assert forall f :: f in p ==> f == p[0] || f in p[1..];
    }
  }

  /** The function's lines are loaded where its label says, its marks beside them. */
  ghost predicate Placed(o: Options, f: Func, table: seq<LabelDef>, img: Image, marks: seq<Mark>) {
    var env := EnvOf(table);
    && f.name in env && env[f.name] % 4 == 0 && env[f.name] / 4 <= |img.ins|
    && Loaded(FuncLines(o, f), env[f.name] / 4, img, Names(env, f.name))
    && MarksAt(marks, env[f.name] / 4, FuncMarks(o, f))
  }

  lemma OneFuncLoaded(o: Options, f: Func, rest: seq<AsmLine>, c: Cursor, done: seq<u8>,
                      table: seq<LabelDef>, bytes: seq<u8>, img: Image, before: seq<Mark>, later: seq<Mark>)
    returns (c1: Cursor, done1: seq<u8>)
    requires Passing(FuncAsm(o, f) + rest, c, done, table, bytes) && f.name != "" && f.name[0] != '@'
    requires Decodes(bytes, img.ins) && |bytes| < 0x1_0000 && |done| == 4 * |before|
    ensures Passing(rest, c1, done1, table, bytes)
    ensures Placed(o, f, table, img, before + FuncMarks(o, f) + later)
    ensures |done1| == 4 * |before + FuncMarks(o, f)|
  {
    hide Decode, Encode, EnvOf, InsertAt, Final, CodeLine, Emit2, Table, Passing, Decodes, Resolve, FuncLines,
         FuncMarks, Loaded, Count;
    var body := ToAsm(FuncLines(o, f)) + rest;
    assert FuncAsm(o, f) + rest == [AExport(f.name)] + ([ALabel(f.name)] + body);
    var ca, da := PassLine(AExport(f.name), [ALabel(f.name)] + body, c, done, table, bytes);
    var cb, db := PassLine(ALabel(f.name), body, ca, da, table, bytes);
    FuncLabels(o, f);
    assert cb.last == f.name && db == da;
    c1, done1 := LinesLoaded(FuncLines(o, f), rest, cb, db, table, bytes, img);
    StandsAligned(body, cb, db, table, bytes, img);
    assert Lookup(table, f.name) == Some(|db|) && |db| <= |bytes|;
    assert EnvOf(table)[f.name] == |db|;
    FuncMarksCount(o, f);
  }

  lemma FuncMarksCount(o: Options, f: Func)
    ensures |FuncMarks(o, f)| == Count(FuncLines(o, f))
  {
    hide EmitBlocks, BlocksMarks;
    BlocksMarksCount(o, FuncLayout(f), FuncBlocks(f));
    CountAppend(EmitBlocks(o, FuncLayout(f), FuncBlocks(f)), [Ins(Ret)]);
    var line := Ins(Ret);
    assert [line][1..] == [] && Count([]) == 0;
  }

  lemma StandsAligned(rest: seq<AsmLine>, c: Cursor, done: seq<u8>, table: seq<LabelDef>, bytes: seq<u8>, img: Image)
    requires Passing(rest, c, done, table, bytes) && Decodes(bytes, img.ins)
    ensures c.pos == |done| && |done| % 4 == 0 && |done| / 4 <= |img.ins| && |done| <= |bytes|
  {
    hide Decode, Encode, EnvOf, InsertAt, Final, CodeLine, Emit2One, Table, Honest;
    CodePrefix(rest, c, done, table);
  }

  // The label table of a program ---------------------------------------------------------

  /** The names the labels of some lines get. */
  function DefinedNames(lines: seq<AsmLine>, scope: string): seq<string>
    decreases |lines|
  {
    if lines == [] then []
    else if lines[0].ALabel? then
      [Qualify(scope, lines[0].name)] +
      DefinedNames(lines[1..], if IsLocal(lines[0].name) then scope else lines[0].name)
    else DefinedNames(lines[1..], scope)
  }

  lemma {:induction false} TableNames(lines: seq<AsmLine>, c: Cursor)
    requires Table(lines, c).Some?
    ensures NamesOf(Table(lines, c).value) == DefinedNames(lines, c.last)
    decreases |lines|
  {
    hide Encode, NextIns;
    if lines != [] {
      var c1 := Advance(c, lines[0]).value;
      TableNames(lines[1..], c1);
      if lines[0].ALabel? {
        var t := Table(lines[1..], c1).value;
        assert NamesOf(Table(lines, c).value) == [Qualify(c.last, lines[0].name)] + NamesOf(t);
      }
    }
  }

  function Prefixed(scope: string, xs: seq<string>): (r: seq<string>)
    ensures |r| == |xs| && forall i :: 0 <= i < |r| ==> r[i] == scope + xs[i]
  {
    seq(|xs|, i requires 0 <= i < |xs| => scope + xs[i])
  }

  lemma PrefixedAppend(scope: string, a: seq<string>, b: seq<string>)
    ensures Prefixed(scope, a + b) == Prefixed(scope, a) + Prefixed(scope, b)
  {
  }

  lemma OneName(l: Line, rest: seq<AsmLine>, scope: string)
    requires l.Label? ==> IsLocal(l.name)
    ensures DefinedNames([ToAsm([l])[0]] + rest, scope) ==
            (if l.Label? then [scope + l.name] else []) + DefinedNames(rest, scope)
  {
    assert ([ToAsm([l])[0]] + rest)[1..] == rest;
  }

  lemma {:induction false} BodyNames(code: seq<Line>, rest: seq<AsmLine>, scope: string)
    requires LocalLabels(code)
    ensures DefinedNames(ToAsm(code) + rest, scope) == Prefixed(scope, LineLabels(code)) + DefinedNames(rest, scope)
    decreases |code|
  {
    hide DefinedNames, ToAsm, LineLabels, Prefixed;
    if code == [] {
      NoNames(code, rest, scope);
    } else {
      var head := if code[0].Label? then [code[0].name] else [];
      FirstLabel(code);
      ToAsmHead(code, rest);
      OneName(code[0], ToAsm(code[1..]) + rest, scope);
      BodyNames(code[1..], rest, scope);
      PrefixedAppend(scope, head, LineLabels(code[1..]));
      assert Prefixed(scope, head) == if code[0].Label? then [scope + code[0].name] else [];
    }
  }

  lemma NoNames(code: seq<Line>, rest: seq<AsmLine>, scope: string)
    requires code == []
    ensures ToAsm(code) + rest == rest && Prefixed(scope, LineLabels(code)) == []
  {
  }

  lemma FirstLabel(code: seq<Line>)
    requires code != []
    ensures LineLabels(code) == (if code[0].Label? then [code[0].name] else []) + LineLabels(code[1..])
    ensures LocalLabels(code) ==> LocalLabels(code[1..]) && (code[0].Label? ==> IsLocal(code[0].name))
  {
  }

  /** A name defined in a function: the function's own, or a local one behind it. */
  predicate OwnedBy(n: string, f: string) {
    n == f || (|f| < |n| && n[..|f|] == f && n[|f|] == '@')
  }

  predicate PlainName(f: string) {
    forall i :: 0 <= i < |f| ==> f[i] != '@'
  }

  /** The part of a name before its first '@'. */
  function Owner(n: string): string {
    if n == "" || n[0] == '@' then "" else [n[0]] + Owner(n[1..])
  }

  lemma {:induction false} OwnerIs(n: string, f: string)
    requires PlainName(f) && OwnedBy(n, f)
    ensures Owner(n) == f
  {
    if f != "" {
      assert n[0] == f[0];
      assert OwnedBy(n[1..], f[1..]) by {
        if n != f {
          assert n[1..][..|f[1..]|] == n[..|f|][1..];
        }
      }
      OwnerIs(n[1..], f[1..]);
    }
  }

  /** A function's own name and its local labels under it are all different. */
  lemma OwnNames(f: string, xs: seq<string>)
    requires NoDup(xs) && forall l :: l in xs ==> l != "" && l[0] == '@'
    ensures NoDup([f] + Prefixed(f, xs)) && forall n :: n in [f] + Prefixed(f, xs) ==> OwnedBy(n, f)
  {
    hide NoDup;
    var ps := Prefixed(f, xs);
    PrefixedDistinct(f, xs);
    OneName1(f);
    forall n | n in ps ensures n !in [f] && OwnedBy(n, f) {
      var i :| 0 <= i < |ps| && ps[i] == n;
      assert n == f + xs[i] && xs[i] in xs;
    }
    NoDupConcat([f], ps);
  }

  lemma OneName1(f: string)
    ensures NoDup([f])
  {
  }

  lemma PrefixedDistinct(f: string, xs: seq<string>)
    requires NoDup(xs)
    ensures NoDup(Prefixed(f, xs))
  {
    hide Prefixed;
    var ps := Prefixed(f, xs);
    forall i, j | 0 <= i < j < |ps| ensures ps[i] != ps[j] {
      assert ps[i][|f|..] == xs[i] && ps[j][|f|..] == xs[j];
    }
  }

  /** The export and the label in front of the body define the function's own name. */
  lemma HeadNames(name: string, body: seq<AsmLine>, scope: string)
    requires name != "" && name[0] != '@'
    ensures DefinedNames([AExport(name), ALabel(name)] + body, scope) == [name] + DefinedNames(body, name)
  {
    var lines := [AExport(name), ALabel(name)] + body;
    assert lines[0] == AExport(name) && lines[1..] == [ALabel(name)] + body;
    assert lines[1..][0] == ALabel(name) && lines[1..][1..] == body;
    assert DefinedNames(lines[1..], scope) == [name] + DefinedNames(body, name);
  }

  lemma FuncNames(o: Options, f: Func, rest: seq<AsmLine>, scope: string) returns (own: seq<string>)
    requires f.name != "" && f.name[0] != '@'
    ensures DefinedNames(FuncAsm(o, f) + rest, scope) == own + DefinedNames(rest, f.name)
    ensures own == [f.name] + Prefixed(f.name, LineLabels(FuncLines(o, f)))
    ensures NoDup(own) && forall n :: n in own ==> OwnedBy(n, f.name)
  {
    hide FuncLines, LineLabels, OwnedBy, Prefixed, NoDup, DefinedNames, ToAsm;
    var xs := LineLabels(FuncLines(o, f));
    FuncLabels(o, f);
    BodyNames(FuncLines(o, f), rest, f.name);
    own := [f.name] + Prefixed(f.name, xs);
    var body := ToAsm(FuncLines(o, f)) + rest;
    assert FuncAsm(o, f) + rest == [AExport(f.name), ALabel(f.name)] + body;
    HeadNames(f.name, body, scope);
    OwnNames(f.name, xs);
    assert own + DefinedNames(rest, f.name) == [f.name] + (Prefixed(f.name, xs) + DefinedNames(rest, f.name));
  }

  lemma {:induction false} ProgramNames(o: Options, p: Program, scope: string)
    requires forall f :: f in p ==> f.name != "" && PlainName(f.name)
    requires forall i, j :: 0 <= i < j < |p| ==> p[i].name != p[j].name
    ensures NoDup(DefinedNames(ProgramAsm(o, p), scope))
    ensures forall n | n in DefinedNames(ProgramAsm(o, p), scope) :: exists i :: 0 <= i < |p| && OwnedBy(n, p[i].name)
    decreases |p|
  {
    hide FuncAsm, OwnedBy;
    if p != [] {
      var rest := ProgramAsm(o, p[1..]);
      var own := FuncNames(o, p[0], rest, scope);
      ProgramNames(o, p[1..], p[0].name);
      var later := DefinedNames(rest, p[0].name);
      forall n | n in own ensures n !in later {
        OwnerIs(n, p[0].name);
        forall m | m in later ensures Owner(m) != p[0].name {
          var i :| 0 <= i < |p[1..]| && OwnedBy(m, p[1..][i].name);
          OwnerIs(m, p[i + 1].name);
        }
      }
      NoDupConcat(own, later);
      forall n | n in own + later ensures exists i :: 0 <= i < |p| && OwnedBy(n, p[i].name) {
        if n in own {
          assert OwnedBy(n, p[0].name);
        } else {
          var i :| 0 <= i < |p[1..]| && OwnedBy(n, p[1..][i].name);
          assert OwnedBy(n, p[i + 1].name);
        }
      }
    }
  }

  /** The address of a label, by the first pass alone. */
  function AddressOf(lines: seq<AsmLine>, name: string): Option<nat> {
    match Table(lines, START.At())
    case Some(t) => Lookup(t, name)
    case None => None
  }

  // The whole tool chain -------------------------------------------------------------------

  /** The instructions of some lines, each symbol replaced by its address: labels only move
      the scope of local names. */
  function ResolvedIns(lines: seq<AsmLine>, scope: string, env: map<string, u16>): seq<Instr> {
    if lines == [] then []
    else
      match lines[0]
      case AIns(i) => [Resolve(Names(env, scope), i)] + ResolvedIns(lines[1..], scope, env)
      case ALabel(n) => ResolvedIns(lines[1..], if IsLocal(n) then scope else n, env)
      case _ => ResolvedIns(lines[1..], scope, env)
  }

  /** Lines that place bytes or names behind the code. */
  predicate DataLine(line: AsmLine) {
    !line.AIns? && !line.AOrg?
  }

  predicate DataOnly(lines: seq<AsmLine>) {
    forall i :: 0 <= i < |lines| ==> DataLine(lines[i])
  }

  /** Data only appends. */
  lemma {:induction false} DataPrefix(lines: seq<AsmLine>, c: Cursor, code: seq<u8>, table: seq<LabelDef>)
    requires DataOnly(lines) && c.pos == |code| && Emit2(lines, c, Some(code), table).Some?
    ensures code <= Emit2(lines, c, Some(code), table).value
    decreases |lines|
  {
    hide Encode, InsertAt, Final;
    if lines != [] {
      EmitSome(lines, c, code, table);
      var c1, code1 := Advance(c, lines[0]).value, Emit2One(lines[0], c, Some(code), table).value;
      DataStep(lines[0], c, code, table);
      assert DataOnly(lines[1..]);
      DataPrefix(lines[1..], c1, code1, table);
    }
  }

  lemma DataStep(line: AsmLine, c: Cursor, code: seq<u8>, table: seq<LabelDef>)
    requires DataLine(line) && c.pos == |code| && Advance(c, line).Some? && Emit2One(line, c, Some(code), table).Some?
    ensures var out := Emit2One(line, c, Some(code), table).value; code <= out && |out| == Advance(c, line).value.pos
  {
    hide Encode, InsertAt;
    if Emits(line) {
      InsertAtEnd(code, Piece(line, c.values));
    }
  }

  /** The bytes of code, data behind it or not, decode to exactly its resolved instructions. */
  lemma {:induction false} CodeDecodes(lines: seq<AsmLine>, data: seq<AsmLine>, c: Cursor, code: seq<u8>,
                                       table: seq<LabelDef>, bytes: seq<u8>, before: seq<Instr>)
    requires CodeOnly(lines) && DataOnly(data) && c.values == map[] && c.pos == |code| && c.pos % 4 == 0
    requires Emit2(lines + data, c, Some(code), table) == Some(bytes) && Decodes(code, before)
    ensures var ins := before + ResolvedIns(lines, c.last, EnvOf(table));
            && 4 * |ins| <= |bytes| && Decodes(bytes[..4 * |ins|], ins)
            && (data == [] ==> Decodes(bytes, ins))
    decreases |lines|
  {
    hide *;
    if lines == [] {
      assert lines + data == data;
      NothingResolved(c.last, EnvOf(table), before);
      DataPrefix(data, c, code, table);
      DecodesLength(code, before);
      assert bytes[..|code|] == code;
      if data == [] {
        assert bytes == code by { NoLines(c, code, table); }
      }
    } else {
      LinesStep(lines, data, c, code, table);
      var c1, code1 := Advance(c, lines[0]).value, Emit2One(lines[0], c, Some(code), table).value;
      CodeStep([lines[0]], c, code, table);
      var more := if lines[0].AIns? then [Resolve(Names(EnvOf(table), c.last), lines[0].i)] else [];
      DecodesMore([lines[0]], c, code, code1, table, before, more);
      CodeDecodes(lines[1..], data, c1, code1, table, bytes, before + more);
      ResolvedStep(lines, c, c1, EnvOf(table), before, more);
    }
  }

  lemma NothingResolved(scope: string, env: map<string, u16>, before: seq<Instr>)
    ensures before + ResolvedIns([], scope, env) == before
  {
  }

  lemma NoLines(c: Cursor, code: seq<u8>, table: seq<LabelDef>)
    ensures Emit2([], c, Some(code), table) == Some(code)
  {
  }

  /** The second pass goes over the first line. */
  lemma LinesStep(lines: seq<AsmLine>, data: seq<AsmLine>, c: Cursor, code: seq<u8>, table: seq<LabelDef>)
    requires lines != [] && CodeOnly(lines) && Emit2(lines + data, c, Some(code), table).Some?
    ensures Advance(c, lines[0]).Some? && Emit2One(lines[0], c, Some(code), table).Some?
    ensures CodeOnly([lines[0]]) && CodeOnly(lines[1..]) && CodeLine(lines[0])
    ensures Emit2(lines + data, c, Some(code), table) ==
            Emit2(lines[1..] + data, Advance(c, lines[0]).value, Emit2One(lines[0], c, Some(code), table), table)
  {
    hide Advance, Emit2One, CodeLine;
    assert (lines + data)[0] == lines[0] && (lines + data)[1..] == lines[1..] + data;
    EmitSome(lines + data, c, code, table);
  }

  lemma ResolvedStep(lines: seq<AsmLine>, c: Cursor, c1: Cursor, env: map<string, u16>, before: seq<Instr>, more: seq<Instr>)
    requires lines != [] && CodeLine(lines[0]) && Advance(c, lines[0]) == Some(c1)
    requires more == if lines[0].AIns? then [Resolve(Names(env, c.last), lines[0].i)] else []
    ensures before + ResolvedIns(lines, c.last, env) == before + more + ResolvedIns(lines[1..], c1.last, env)
  {
    hide Encode, Resolve, Exact;
    var rest := ResolvedIns(lines[1..], c1.last, env);
    assert before + (more + rest) == before + more + rest;
  }

  lemma DecodesMore(lines: seq<AsmLine>, c: Cursor, code: seq<u8>, code1: seq<u8>, table: seq<LabelDef>,
                    before: seq<Instr>, more: seq<Instr>)
    requires CodeOnly(lines) && lines != [] && c.values == map[] && c.pos == |code| && c.pos % 4 == 0
    requires Advance(c, lines[0]).Some? && Emit2One(lines[0], c, Some(code), table) == Some(code1)
    requires Decodes(code, before)
    requires more == if lines[0].AIns? then [Resolve(Names(EnvOf(table), c.last), lines[0].i)] else []
    ensures Decodes(code1, before + more)
  {
    hide Decode, Encode, EnvOf, InsertAt, Final, Resolve;
    assert CodeLine(lines[0]);
    if lines[0].AIns? {
      InsStep(lines[0].i, c, code, table);
      assert forall k :: 0 <= k < |code| ==> code1[k] == code[k];
    }
  }

  /** The bytes of an assembled program decode to an instruction list, and the second pass
      is about to go over its lines. */
  lemma AssembledList(o: Options, p: Program, bytes: seq<u8>) returns (ins: seq<Instr>, table: seq<LabelDef>)
    requires Encodable(o, p) && Assemble2(ProgramAsm(o, p)) == Some(bytes)
    ensures Table(ProgramAsm(o, p), START.At()) == Some(table) && Decodes(bytes, ins)
    ensures Passing(ProgramAsm(o, p), START.At(), [], table, bytes)
  {
    hide Emit2, Table, Decodes, EnvOf, CodeOnly, GoodFunc, Honest, ProgramAsm, ResolvedIns;
    var lines := ProgramAsm(o, p);
    table := Table(lines, START.At()).value;
    NamesFit(p);
    ProgramNames(o, p, "");
    TableNames(lines, START.At());
    HonestSelf(table);
    NoCode();
    assert lines + [] == lines;
    CodeDecodes(lines, [], START.At(), [], table, bytes, []);
    ins := [] + ResolvedIns(lines, START.At().last, EnvOf(table));
  }

  /** The assembled program is a linked world: every function loaded at its label. */
  lemma AssembledWorld(o: Options, p: Program, bytes: seq<u8>, lim: int) returns (g: World, table: seq<LabelDef>)
    requires Encodable(o, p) && Assemble2(ProgramAsm(o, p)) == Some(bytes)
    requires |bytes| <= lim && |bytes| < 0x1_0000
    ensures Table(ProgramAsm(o, p), START.At()) == Some(table)
    ensures g == World(Image(g.img.ins, lim), ProgramMarks(o, p), o, p, EnvOf(table))
    ensures Linked(g) && Decodes(bytes, g.img.ins)
  {
    hide Assemble2, Table, Decodes, EnvOf, FuncLoaded, Placed, CodeOnly, GoodFunc, Passing, ProgramAsm, ProgramMarks;
    var ins;
    ins, table := AssembledList(o, p, bytes);
    NamesFit(p);
    g := World(Image(ins, lim), ProgramMarks(o, p), o, p, EnvOf(table));
    DecodesLength(bytes, ins);
    FuncsLoaded(o, p, START.At(), [], table, bytes, g.img, []);
    assert [] + ProgramMarks(o, p) == ProgramMarks(o, p);
    forall f | f in p ensures FuncLoaded(g, f) {
      assert Placed(o, f, table, g.img, g.marks);
      PlacedLoaded(g, f, table);
    }
  }

  lemma NamesFit(p: Program)
    requires GoodProgram(p)
    ensures forall f :: f in p ==> f.name != "" && f.name[0] != '@' && PlainName(f.name)
  {
  }

  lemma NoCode()
    ensures Decodes([], []) && START.At() == Cursor(0, "", map[], [])
  {
  }

  lemma DecodesLength(bytes: seq<u8>, ins: seq<Instr>)
    requires Decodes(bytes, ins)
    ensures |bytes| == 4 * |ins|
  {
  }

  lemma PlacedLoaded(g: World, f: Func, table: seq<LabelDef>)
    requires Placed(g.o, f, table, g.img, g.marks) && g.env == EnvOf(table)
    ensures FuncLoaded(g, f)
  {
  }

  lemma LoadedBytes(bytes: seq<u8>, img: Image, m: Memory)
    requires Decodes(bytes, img.ins) && img.Fits() && bytes <= m
    ensures CodeIn(img, m)
  {
    hide Decode;
    assert forall k :: 0 <= k < |bytes| ==> m[k] == bytes[k];
  }

  /**
   Compiler, assembler and CPU together. If the interpreter runs a call of a function to
   an answer within the stack there is, then the machine, with the assembled bytes at
   address 0, the function's address in ip and the arguments in r0.., comes back to the
   return address with that answer in r0, the callee-saved registers and sp restored, and
   every byte from the entry sp up unchanged. The registers stored and returned, the
   arguments passed and the flags jumped on along the way are the interpreter's, in order.
   */
  lemma CompiledProgramRuns(o: Options, p: Program, f: Func, args: seq<u16>, bytes: seq<u8>, s: State, fuel: nat)
    returns (n: nat, t: State)
    requires Encodable(o, p) && f in p && Tame(ProgramAsm(o, p), START.At(), false)
    requires Assemble1(ProgramAsm(o, p)) == Some(bytes) && |bytes| < 0x1_0000
    requires bytes <= s.mem && |bytes| <= s.regs.sp < 0xffff
    requires AddressOf(ProgramAsm(o, p), f.name) == Some(s.regs.ip as nat)
    requires forall i :: 0 <= i < |args| && i < 4 ==> s.regs.g[i] == args[i]
    requires CallF(p, f.name, args, s.regs.sp - |bytes|, fuel).Some?
    ensures RunBytes(s, n) == Next(t) && ReturnsTo(s, t)
    ensures TraceBytes(ProgramMarks(o, p), s, n) == TraceF(p, f.name, args, s.regs.sp - |bytes|, fuel)
    ensures var rv := CallF(p, f.name, args, s.regs.sp - |bytes|, fuel).value; rv.Some? ==> t.regs.g[0] == rv.value
  {
    hide *;
    var g := EntryWorld(o, p, f, bytes, s);
    t := FuncRuns(g, f, args, s, fuel);
    n := StepsShown(g.img, g.marks, s, t, TraceF(p, f.name, args, s.regs.sp - |bytes|, fuel));
    RunAgrees(g.img, s, n);
    TraceAgrees(g.img, g.marks, s, n);
  }

  /** The world of an assembled program entered at one of its functions. */
  lemma EntryWorld(o: Options, p: Program, f: Func, bytes: seq<u8>, s: State) returns (g: World)
    requires Encodable(o, p) && f in p && Tame(ProgramAsm(o, p), START.At(), false)
    requires Assemble1(ProgramAsm(o, p)) == Some(bytes) && |bytes| < 0x1_0000
    requires bytes <= s.mem && AddressOf(ProgramAsm(o, p), f.name) == Some(s.regs.ip as nat)
    ensures Linked(g) && g.p == p && g.o == o && g.marks == ProgramMarks(o, p) && g.img.lim == |bytes|
    ensures GoodFunc(f) && FuncLoaded(g, f) && FindFunc(p, f.name) == Some(f) && s.regs.ip == g.env[f.name]
    ensures CodeIn(g.img, s.mem)
  {
    hide *;
    OnePassIsTwoPass(ProgramAsm(o, p));
    var table;
    g, table := AssembledWorld(o, p, bytes, |bytes|);
    DecodesLength(bytes, g.img.ins);
    LinkedFits(g);
    LoadedBytes(bytes, g.img, s.mem);
    NamesDiffer(o, p);
    FindDistinct(p, f);
    FoundLoaded(g, f);
    AddressIs(o, p, f, table, s.regs.ip);
  }

  lemma LinkedFits(g: World)
    requires Linked(g)
    ensures g.img.Fits()
  {
  }

  lemma NamesDiffer(o: Options, p: Program)
    requires Encodable(o, p)
    ensures forall i, j :: 0 <= i < j < |p| ==> p[i].name != p[j].name
  {
  }

  lemma AddressIs(o: Options, p: Program, f: Func, table: seq<LabelDef>, ip: u16)
    requires Table(ProgramAsm(o, p), START.At()) == Some(table) && AddressOf(ProgramAsm(o, p), f.name) == Some(ip as nat)
    ensures f.name in EnvOf(table) && EnvOf(table)[f.name] == ip
  {
    hide Table, ProgramAsm, Lookup;
  }

  lemma StepsShown(img: Image, marks: seq<Mark>, s: State, t: State, evs: seq<Event>) returns (n: nat)
    requires Shows(img, marks, s, t, evs)
    ensures Run(img, s, n) == Next(t) && Trace(img, marks, s, n) == evs
  {
    n :| Takes(img, marks, s, t, n, evs);
  }

  lemma {:induction false} FindDistinct(p: Program, f: Func)
    requires f in p && forall i, j :: 0 <= i < j < |p| ==> p[i].name != p[j].name
    ensures FindFunc(p, f.name) == Some(f)
  {
    if p[0] != f {
      var i :| 0 <= i < |p| && p[i] == f;
      FindDistinct(p[1..], f);
    }
  }
}
