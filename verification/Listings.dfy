/**
 Any list of emitted code, data behind it: the assembled bytes, run by the fetch/decode
 loop, go through the states of the instruction list.
 */
module Listings {
  import opened Words
  import opened Machine
  import opened Images
  import opened Encoding
  import opened Assembly
  import opened ByteSim
  import opened Values
  import opened Emit
  import opened Compile
  import opened FuncCode
  import opened Toolchain
  import opened Literals

  lemma {:induction false} DataNoIns(lines: seq<AsmLine>, pos: nat)
    requires DataOnly(lines)
    ensures !NextIns(lines, pos)
    decreases |lines|
  {
    if lines != [] {
      assert DataOnly(lines[1..]);
      DataNoIns(lines[1..], pos);
    }
  }

  lemma {:induction false} DataTame(lines: seq<AsmLine>, c: Cursor, pending: bool)
    requires DataOnly(lines)
    ensures Tame(lines, c, pending)
    decreases |lines|
  {
    hide Encode, NextIns;
    if lines != [] && Advance(c, lines[0]).Some? {
      assert DataOnly(lines[1..]);
      DataNoIns(lines[1..], c.pos);
      var c1 := Advance(c, lines[0]).value;
      DataTame(lines[1..], c1, lines[0].ALabel? || (pending && c1.pos == c.pos));
    }
  }

  /** Code first and data behind it is tame, wherever labels stand. */
  lemma {:induction false} ListTame(code: seq<AsmLine>, data: seq<AsmLine>, c: Cursor, pending: bool)
    requires CodeOnly(code) && DataOnly(data) && c.pos % 4 == 0
    ensures Tame(code + data, c, pending)
    decreases |code|
  {
    hide Encode, Exact, NextIns, DataLine;
    if code == [] {
      assert code + data == data;
      DataTame(data, c, pending);
    } else if Advance(c, code[0]).Some? {
      assert (code + data)[0] == code[0] && (code + data)[1..] == code[1..] + data;
      assert CodeLine(code[0]);
      var c1 := Advance(c, code[0]).value;
      ListTame(code[1..], data, c1, code[0].ALabel? || (pending && c1.pos == c.pos));
    }
  }

  /** The instructions of assembled code, every symbol resolved by the first pass. */
  function AssembledIns(code: seq<AsmLine>, data: seq<AsmLine>): seq<Instr> {
    match Table(code + data, START.At())
    case Some(t) => ResolvedIns(code, "", EnvOf(t))
    case None => []
  }

  /** What a successful assembly leaves in the bytes. */
  lemma AssembledDecodes(code: seq<AsmLine>, data: seq<AsmLine>, bytes: seq<u8>)
    requires CodeOnly(code) && DataOnly(data) && Assemble1(code + data) == Some(bytes)
    ensures var ins := AssembledIns(code, data); 4 * |ins| <= |bytes| && Decodes(bytes[..4 * |ins|], ins)
  {
    hide Run1, Table, Emit2, ResolvedIns, EnvOf, Tame, CodeOnly, DataOnly, Decodes, PatchAll;
    ListTame(code, data, START.At(), false);
    OnePassIsTwoPass(code + data);
    NoCode();
    var t := Table(code + data, START.At()).value;
    CodeDecodes(code, data, START.At(), [], t, bytes, []);
    assert [] + ResolvedIns(code, "", EnvOf(t)) == ResolvedIns(code, "", EnvOf(t));
  }

  /**
   Any code the assembler accepts, data behind it or none: as long as the instruction list
   runs without a store into the code, the fetch/decode loop over the assembled bytes
   passes through the same states, step for step, whichever form each immediate got.
   */
  lemma AssembledRuns(code: seq<AsmLine>, data: seq<AsmLine>, bytes: seq<u8>, s: State, lim: int, n: nat)
    requires CodeOnly(code) && DataOnly(data) && Assemble1(code + data) == Some(bytes)
    requires bytes <= s.mem && |bytes| < 0x1_0000 && 4 * |AssembledIns(code, data)| <= lim
    requires Run(Image(AssembledIns(code, data), lim), s, n).Next?
    ensures RunBytes(s, n) == Run(Image(AssembledIns(code, data), lim), s, n)
  {
    hide Assemble1, AssembledIns, Decodes, Run, RunBytes, CodeIn, CodeOnly, DataOnly;
    var img := Image(AssembledIns(code, data), lim);
    AssembledDecodes(code, data, bytes);
    LoadedBytes(bytes[..4 * |img.ins|], img, s.mem);
    RunAgrees(img, s, n);
  }

  // Emitted code -----------------------------------------------------------------------

  /** A function as the emitter prints it: label, blocks and `ret`. */
  datatype Listing = Listing(name: string, lay: Layout, blocks: seq<Block>)

  function ListingAsm(o: Options, l: Listing): seq<AsmLine> {
    [AExport(l.name), ALabel(l.name)] + ToAsm(EmitBlocks(o, l.lay, l.blocks) + [Ins(Ret)])
  }

  function ListingsAsm(o: Options, ls: seq<Listing>): seq<AsmLine> {
    if ls == [] then [] else ListingAsm(o, ls[0]) + ListingsAsm(o, ls[1..])
  }

  /** Whatever the blocks hold, indexes, fields, pointers, strings and globals included:
      when its immediates fit, their code is code the bytes hold exactly. */
  lemma {:induction false} ListingsExact(o: Options, ls: seq<Listing>)
    requires forall i :: 0 <= i < |ls| ==> FitsBs(o, ls[i].lay, ls[i].blocks)
    ensures CodeOnly(ListingsAsm(o, ls))
  {
    hide FitsBs, EmitBlocks, ExactLines, CodeLine;
    if ls != [] {
      ExactBlocks(o, ls[0].lay, ls[0].blocks);
      LinesWithRet(EmitBlocks(o, ls[0].lay, ls[0].blocks));
      AsmExact(EmitBlocks(o, ls[0].lay, ls[0].blocks) + [Ins(Ret)]);
      HeaderLines(ls[0].name);
      ListingsExact(o, ls[1..]);
      assert CodeOnly(ListingAsm(o, ls[0]));
    }
  }

  /** The bytes of any emitted functions, strings and globals behind them, run as the list
      of their instructions does. */
  lemma EmittedRuns(o: Options, ls: seq<Listing>, data: seq<AsmLine>, bytes: seq<u8>, s: State, lim: int, n: nat)
    requires forall i :: 0 <= i < |ls| ==> FitsBs(o, ls[i].lay, ls[i].blocks)
    requires DataOnly(data) && Assemble1(ListingsAsm(o, ls) + data) == Some(bytes)
    requires bytes <= s.mem && |bytes| < 0x1_0000 && 4 * |AssembledIns(ListingsAsm(o, ls), data)| <= lim
    requires Run(Image(AssembledIns(ListingsAsm(o, ls), data), lim), s, n).Next?
    ensures RunBytes(s, n) == Run(Image(AssembledIns(ListingsAsm(o, ls), data), lim), s, n)
  {
    hide *;
    ListingsExact(o, ls);
    AssembledRuns(ListingsAsm(o, ls), data, bytes, s, lim, n);
  }

  // Data between code ------------------------------------------------------------------------

  /** Code and data in any order, without origins and named values. */
  predicate MixLine(line: AsmLine) {
    CodeLine(line) || line.AByte? || line.AString? || line.AResv?
  }

  predicate Mixed(lines: seq<AsmLine>) {
    forall i :: 0 <= i < |lines| ==> MixLine(lines[i])
  }

  /** The cursor behind some lines. */
  function CursorAfter(lines: seq<AsmLine>, c: Cursor): Option<Cursor>
    decreases |lines|
  {
    if lines == [] then Some(c)
    else
      match Advance(c, lines[0])
      case Some(c1) => CursorAfter(lines[1..], c1)
      case None => None
  }

  /** A line appends its bytes, behind padding for an instruction. */
  lemma MixStep(line: AsmLine, c: Cursor, code: seq<u8>, table: seq<LabelDef>)
    requires MixLine(line) && c.values == map[] && c.pos == |code|
    requires Advance(c, line).Some? && Emit2One(line, c, Some(code), table).Some?
    ensures var c1, out := Advance(c, line).value, Emit2One(line, c, Some(code), table).value;
            && c1.values == map[] && c1.pos == |out| && code <= out
            && (line.AIns? ==> |out| == AlignUp(c.pos) + 4)
    ensures line.AIns? ==> Final(line, c, table).Some? && |Final(line, c, table).value| == 4 &&
                           Emit2One(line, c, Some(code), table).value[AlignUp(c.pos)..] == Final(line, c, table).value
  {
    hide Encode, EnvOf, Exact;
    if line.AIns? {
      EncShape(line.i);
    }
  }

  lemma {:induction false} MixPrefix(lines: seq<AsmLine>, c: Cursor, code: seq<u8>, table: seq<LabelDef>)
    requires Mixed(lines) && c.values == map[] && c.pos == |code| && Emit2(lines, c, Some(code), table).Some?
    ensures code <= Emit2(lines, c, Some(code), table).value
    decreases |lines|
  {
    hide MixLine, Advance, Emit2One, Final;
    if lines != [] {
      EmitSome(lines, c, code, table);
      MixStep(lines[0], c, code, table);
      assert Mixed(lines[1..]);
      MixPrefix(lines[1..], Advance(c, lines[0]).value, Emit2One(lines[0], c, Some(code), table).value, table);
    }
  }

  /** Wherever it stands between data, an instruction lies at the next multiple of four behind
      what comes before it, and its bytes decode to it with its symbol resolved. */
  lemma {:induction false} InstructionPlaced(before: seq<AsmLine>, i: Instr, rest: seq<AsmLine>, c: Cursor, code: seq<u8>,
                                             table: seq<LabelDef>, bytes: seq<u8>)
    returns (c1: Cursor)
    requires Mixed(before) && Mixed(rest) && CodeLine(AIns(i)) && c.values == map[] && c.pos == |code|
    requires Emit2(before + ([AIns(i)] + rest), c, Some(code), table) == Some(bytes)
    ensures CursorAfter(before, c) == Some(c1)
    ensures var a := AlignUp(c1.pos);
            a + 4 <= |bytes| && Decode(bytes[a], bytes[a + 1], bytes[a + 2], bytes[a + 3]) ==
                                Some(Resolve(Names(EnvOf(table), c1.last), i))
    decreases |before|
  {
    hide MixLine, Advance, Emit2One, Final, Decode, Resolve, EnvOf, CodeLine;
    if before == [] {
      c1 := c;
      assert before + ([AIns(i)] + rest) == [AIns(i)] + rest;
      HeadPlaced(i, rest, c, code, table, bytes);
    } else {
      var lines := before + ([AIns(i)] + rest);
      assert lines[0] == before[0] && lines[1..] == before[1..] + ([AIns(i)] + rest);
      EmitSome(lines, c, code, table);
      MixStep(before[0], c, code, table);
      assert Mixed(before[1..]);
      c1 := InstructionPlaced(before[1..], i, rest, Advance(c, before[0]).value,
                              Emit2One(before[0], c, Some(code), table).value, table, bytes);
    }
  }

  lemma HeadPlaced(i: Instr, rest: seq<AsmLine>, c: Cursor, code: seq<u8>, table: seq<LabelDef>, bytes: seq<u8>)
    requires Mixed(rest) && CodeLine(AIns(i)) && c.values == map[] && c.pos == |code|
    requires Emit2([AIns(i)] + rest, c, Some(code), table) == Some(bytes)
    ensures var a := AlignUp(c.pos);
            a + 4 <= |bytes| && Decode(bytes[a], bytes[a + 1], bytes[a + 2], bytes[a + 3]) ==
                                Some(Resolve(Names(EnvOf(table), c.last), i))
  {
    hide MixLine, Advance, Emit2One, Decode, Resolve, EnvOf, Final, CodeLine;
    var lines := [AIns(i)] + rest;
    assert lines[0] == AIns(i) && lines[1..] == rest;
    EmitSome(lines, c, code, table);
    IsMix(AIns(i));
    MixStep(AIns(i), c, code, table);
    var out := Emit2One(AIns(i), c, Some(code), table).value;
    MixPrefix(rest, Advance(c, AIns(i)).value, out, table);
    FinalDecodes(i, c, table);
    var a := AlignUp(c.pos);
    var four := Final(AIns(i), c, table).value;
    assert out[a..][0] == four[0] && out[a..][1] == four[1] && out[a..][2] == four[2] && out[a..][3] == four[3];
    assert bytes[..|out|] == out;
    assert bytes[a] == out[a] && bytes[a + 1] == out[a + 1] && bytes[a + 2] == out[a + 2] && bytes[a + 3] == out[a + 3];
  }

  lemma IsMix(line: AsmLine)
    requires CodeLine(line)
    ensures MixLine(line)
  {
  }

  lemma FinalDecodes(i: Instr, c: Cursor, table: seq<LabelDef>)
    requires CodeLine(AIns(i)) && c.values == map[] && Advance(c, AIns(i)).Some? && Final(AIns(i), c, table).Some?
    ensures var four := Final(AIns(i), c, table).value;
            |four| == 4 && Decode(four[0], four[1], four[2], four[3]) == Some(Resolve(Names(EnvOf(table), c.last), i))
  {
    hide Decode, Exact, EnvOf;
    var names := Names(EnvOf(table), c.last);
    var e := EncOf(i, c.values);
    EncShape(i);
    var a: u16 := 0;
    if e.field > 0 {
      a := Wrap(Lookup(table, Qualify(c.last, e.symbol)).value);
    }
    assert Final(AIns(i), c, table) == Some(e.Patched(a));
    EncodeDecode(names, i, a);
    assert ReadsBack(names, i, a);
  }

  /** A label right before an instruction gets the instruction's address. */
  lemma {:induction false} LabelBefore(before: seq<AsmLine>, n: string, i: Instr, rest: seq<AsmLine>, c: Cursor)
    returns (c1: Cursor)
    requires Table(before + ([ALabel(n)] + ([AIns(i)] + rest)), c).Some?
    ensures CursorAfter(before, c) == Some(c1)
    ensures LabelDef(Qualify(c1.last, n), AlignUp(c1.pos)) in Table(before + ([ALabel(n)] + ([AIns(i)] + rest)), c).value
    decreases |before|
  {
    hide Encode;
    var tail := [ALabel(n)] + ([AIns(i)] + rest);
    if before == [] {
      c1 := c;
      assert before + tail == tail && tail[0] == ALabel(n) && tail[1..] == [AIns(i)] + rest;
    } else {
      var lines := before + tail;
      assert lines[0] == before[0] && lines[1..] == before[1..] + tail;
      c1 := LabelBefore(before[1..], n, i, rest, Advance(c, before[0]).value);
    }
  }

  /**
   Data and code in any order, as one-pass assembly leaves them: an instruction behind a
   label lies 4-aligned at the address the label has, decoding to itself with its symbol
   resolved, under the conditions in which the one pass agrees with two.
   */
  lemma MixedPlaced(before: seq<AsmLine>, n: string, i: Instr, rest: seq<AsmLine>, bytes: seq<u8>)
    returns (c1: Cursor, table: seq<LabelDef>)
    requires Mixed(before) && Mixed(rest) && CodeLine(AIns(i))
    requires var lines := before + ([ALabel(n)] + ([AIns(i)] + rest));
             Tame(lines, START.At(), false) && Assemble1(lines) == Some(bytes)
    ensures CursorAfter(before, START.At()) == Some(c1)
    ensures Table(before + ([ALabel(n)] + ([AIns(i)] + rest)), START.At()) == Some(table)
    ensures var a, scope := AlignUp(c1.pos), if IsLocal(n) then c1.last else n;
            && a % 4 == 0 && a + 4 <= |bytes| && LabelDef(Qualify(c1.last, n), a) in table
            && Decode(bytes[a], bytes[a + 1], bytes[a + 2], bytes[a + 3]) == Some(Resolve(Names(EnvOf(table), scope), i))
  {
    hide Run1, Table, Emit2, EnvOf, Tame, PatchAll, Decode, Resolve, MixLine, CodeLine, Advance;
    var lines := before + ([ALabel(n)] + ([AIns(i)] + rest));
    OnePassIsTwoPass(lines);
    NoCode();
    table := Table(lines, START.At()).value;
    c1 := LabelBefore(before, n, i, rest, START.At());
    IsMix(ALabel(n));
    assert lines == (before + [ALabel(n)]) + ([AIns(i)] + rest);
    var c2 := InstructionPlaced(before + [ALabel(n)], i, rest, START.At(), [], table, bytes);
    AfterLabel(before, n, START.At(), c1, c2);
  }

  lemma {:induction false} AfterLabel(before: seq<AsmLine>, n: string, c: Cursor, c1: Cursor, c2: Cursor)
    requires CursorAfter(before, c) == Some(c1) && CursorAfter(before + [ALabel(n)], c) == Some(c2)
    ensures c2.pos == c1.pos && c2.last == if IsLocal(n) then c1.last else n
    decreases |before|
  {
    hide Encode;
    if before == [] {
      assert before + [ALabel(n)] == [ALabel(n)] && [ALabel(n)][1..] == [];
    } else {
      assert (before + [ALabel(n)])[0] == before[0] && (before + [ALabel(n)])[1..] == before[1..] + [ALabel(n)];
      AfterLabel(before[1..], n, Advance(c, before[0]).value, c1, c2);
    }
  }
}
