/**
 The assembler: one pass that appends code, moves misaligned labels and records link
 points to be patched at the end, and the plain two-pass assembler it agrees with.
 */
module Assembly {
  import opened Words
  import opened Machine
  import opened Images
  import opened Encoding
  import opened ByteBuffers

  datatype AsmLine =
    | ALabel(name: string)
    | AIns(i: Instr)
    | AByte(v: int)
    | AString(bytes: seq<u8>)
    | AResv(n: nat)
    | AOrg(addr: nat)
    | AValue(name: string, v: int)
    | AExport(name: string)

  datatype LabelDef = LabelDef(name: string, offset: nat)

  datatype LinkPoint = LinkPoint(symbol: string, offset: nat)

  /** What decides whether a line is an error and where the next one goes. */
  datatype Cursor = Cursor(pos: nat, last: string, values: Values, seen: seq<string>)

  function AlignUp(pos: nat): (r: nat)
    ensures pos <= r < pos + 4 && r % 4 == 0
  {
    if pos % 4 == 0 then pos else pos + (4 - pos % 4)
  }

  predicate IsLocal(name: string) {
    name != "" && name[0] == '@'
  }

  function AddValue(values: Values, name: string, v: int): Values {
    if name in values then values else values[name := v]
  }

  /** The cursor behind a line, or `None` where the assembler stops with an error. The
      duplicate check compares the label as written with the labels as qualified. */
  function Advance(c: Cursor, line: AsmLine): Option<Cursor> {
    match line
    case ALabel(n) =>
      if n == "" || (IsLocal(n) && c.last == "") || n in c.seen then None
      else Some(c.(last := if IsLocal(n) then c.last else n, seen := c.seen + [Qualify(c.last, n)]))
    case AIns(i) =>
      (match Encode(i, c.values)
       case None => None
       case Some(e) =>
         if e.field > 0 && IsLocal(e.symbol) && c.last == "" then None
         else Some(c.(pos := AlignUp(c.pos) + 4)))
    case AByte(v) => if v > 255 then None else Some(c.(pos := c.pos + 1))
    case AString(bytes) => Some(c.(pos := c.pos + |bytes| + 1))
    case AResv(n) => Some(c.(pos := c.pos + n))
    case AOrg(addr) => if addr > 0xffff then None else Some(c.(pos := addr))
    case AValue(n, v) => if v > 0xffff then None else Some(c.(values := AddValue(c.values, n, v)))
    case AExport(_) => Some(c)
  }

  // One pass -------------------------------------------------------------------

  datatype Asm = Asm(code: seq<u8>, pos: nat, labels: seq<LabelDef>, links: seq<LinkPoint>,
                     last: string, values: Values, exports: seq<string>, origin: Option<nat>) {
    function At(): Cursor {
      Cursor(pos, last, values, NamesOf(labels))
    }
  }

  const START := Asm([], 0, [], [], "", map[], [], None)

  function NamesOf(labels: seq<LabelDef>): (r: seq<string>)
    ensures |r| == |labels| && forall i :: 0 <= i < |r| ==> r[i] == labels[i].name
  {
    seq(|labels|, i requires 0 <= i < |labels| => labels[i].name)
  }

  /** Moves the first label at `from` to `to`. */
  function Bump(labels: seq<LabelDef>, from: nat, to: nat): (r: seq<LabelDef>)
    ensures |r| == |labels| && forall i :: 0 <= i < |r| ==> r[i].name == labels[i].name
  {
    if labels == [] then []
    else if labels[0].offset == from then [labels[0].(offset := to)] + labels[1..]
    else [labels[0]] + Bump(labels[1..], from, to)
  }

  function EncOf(i: Instr, values: Values): Enc
    requires Encode(i, values).Some?
  {
    Encode(i, values).value
  }

  /** What the line puts into the code, before any patching. */
  function Piece(line: AsmLine, values: Values): seq<u8> {
    match line
    case AIns(i) => if Encode(i, values).Some? then EncOf(i, values).Bytes() else []
    case AByte(v) => [LoByte(v)]
    case AString(bytes) => bytes + [0]
    case AResv(n) => Fill(0, n)
    case _ => []
  }

  predicate Emits(line: AsmLine) {
    line.AIns? || line.AByte? || line.AString? || line.AResv?
  }

  function PlaceOf(line: AsmLine, pos: nat): nat {
    if line.AIns? then AlignUp(pos) else pos
  }

  function LinksOf(line: AsmLine, c: Cursor): seq<LinkPoint> {
    if line.AIns? && Encode(line.i, c.values).Some? && EncOf(line.i, c.values).field > 0 then
      [LinkPoint(Qualify(c.last, EncOf(line.i, c.values).symbol), c.pos + EncOf(line.i, c.values).field)]
    else []
  }

  function LowerOrigin(origin: Option<nat>, addr: nat): Option<nat> {
    match origin
    case None => Some(addr)
    case Some(o) => if o > addr then Some(addr) else origin
  }

  function Step1(st: Asm, line: AsmLine): Option<Asm> {
    match Advance(st.At(), line)
    case None => None
    case Some(c) =>
      Some(Asm(
        if Emits(line) then InsertAt(st.code, Piece(line, st.values), PlaceOf(line, st.pos)) else st.code,
        c.pos,
        if line.ALabel? then st.labels + [LabelDef(Qualify(st.last, line.name), st.pos)]
        else if line.AIns? && st.pos % 4 != 0 then Bump(st.labels, st.pos, AlignUp(st.pos))
        else st.labels,
        st.links + LinksOf(line, st.At()),
        c.last,
        c.values,
        if line.AExport? then st.exports + [line.name] else st.exports,
        if line.AOrg? then LowerOrigin(st.origin, line.addr) else st.origin))
  }

  function Run1(st: Asm, lines: seq<AsmLine>): Option<Asm>
    decreases |lines|
  {
    if lines == [] then Some(st)
    else
      match Step1(st, lines[0])
      case None => None
      case Some(t) => Run1(t, lines[1..])
  }

  function Lookup(table: seq<LabelDef>, name: string): Option<nat> {
    if table == [] then None
    else if table[0].name == name then Some(table[0].offset)
    else Lookup(table[1..], name)
  }

  /** Writes the two bytes of an address over a link point. */
  function PatchOne(code: seq<u8>, offset: nat, a: nat): seq<u8> {
    InsertAt(InsertAt(code, [LoByte(a)], offset), [HiByte(a)], offset + 1)
  }

  function PatchAll(code: seq<u8>, links: seq<LinkPoint>, table: seq<LabelDef>): Option<seq<u8>> {
    if links == [] then Some(code)
    else
      var l := links[|links| - 1];
      match (PatchAll(code, links[..|links| - 1], table), Lookup(table, l.symbol))
      case (Some(c), Some(a)) => Some(PatchOne(c, l.offset, a))
      case _ => None
  }

  function Assemble1(lines: seq<AsmLine>): Option<seq<u8>> {
    match Run1(START, lines)
    case Some(st) => PatchAll(st.code, st.links, st.labels)
    case None => None
  }

  // Two passes -----------------------------------------------------------------

  /** Whether the next thing placed at `pos` is an instruction. */
  predicate NextIns(lines: seq<AsmLine>, pos: nat)
    decreases |lines|
  {
    lines != [] &&
    match lines[0]
    case AIns(_) => true
    case AByte(_) | AString(_) => false
    case AResv(n) => n == 0 && NextIns(lines[1..], pos)
    case AOrg(addr) => addr == pos && NextIns(lines[1..], pos)
    case _ => NextIns(lines[1..], pos)
  }

  /** The address of a label standing at `pos` with these lines behind it. */
  function LabelAddr(lines: seq<AsmLine>, pos: nat): nat {
    if NextIns(lines, pos) then AlignUp(pos) else pos
  }

  /** First pass: every label and the address of what it stands before. */
  function Table(lines: seq<AsmLine>, c: Cursor): Option<seq<LabelDef>>
    decreases |lines|
  {
    if lines == [] then Some([])
    else
      match Advance(c, lines[0])
      case None => None
      case Some(c') =>
        match Table(lines[1..], c')
        case None => None
        case Some(t) =>
          if lines[0].ALabel? then
            Some([LabelDef(Qualify(c.last, lines[0].name), LabelAddr(lines[1..], c.pos))] + t)
          else Some(t)
  }

  /** The final bytes of a line, its symbol looked up in the finished table. */
  function Final(line: AsmLine, c: Cursor, table: seq<LabelDef>): Option<seq<u8>> {
    if line.AIns? && Encode(line.i, c.values).Some? && EncOf(line.i, c.values).field > 0 then
      (match Lookup(table, Qualify(c.last, EncOf(line.i, c.values).symbol))
       case Some(a) => Some(EncOf(line.i, c.values).Patched(Wrap(a)))
       case None => None)
    else Some(Piece(line, c.values))
  }

  /** Second pass: code with every address known. */
  function Emit2(lines: seq<AsmLine>, c: Cursor, code: Option<seq<u8>>, table: seq<LabelDef>): Option<seq<u8>>
    decreases |lines|
  {
    if lines == [] then code
    else
      match Advance(c, lines[0])
      case None => None
      case Some(c') => Emit2(lines[1..], c', Emit2One(lines[0], c, code, table), table)
  }

  function Emit2One(line: AsmLine, c: Cursor, code: Option<seq<u8>>, table: seq<LabelDef>): Option<seq<u8>> {
    if !Emits(line) then code
    else
      match (code, Final(line, c, table))
      case (Some(s), Some(bytes)) => Some(InsertAt(s, bytes, PlaceOf(line, c.pos)))
      case _ => None
  }

  function Assemble2(lines: seq<AsmLine>): Option<seq<u8>> {
    match Table(lines, START.At())
    case Some(t) => Emit2(lines, START.At(), Some([]), t)
    case None => None
  }

  // When the two agree -----------------------------------------------------------

  /**
   Origins never go back over placed code, an instruction with an unresolved symbol
   starts aligned, and at most one label stands at a misaligned position right before
   an instruction. `pending` says that a label stands at the current position.
   */
  predicate Tame(lines: seq<AsmLine>, c: Cursor, pending: bool)
    decreases |lines|
  {
    lines == [] ||
    match Advance(c, lines[0])
    case None => true
    case Some(c') =>
      && (lines[0].AOrg? ==> c.pos <= lines[0].addr)
      && (LinksOf(lines[0], c) != [] ==> c.pos % 4 == 0)
      && (lines[0].ALabel? && c.pos % 4 != 0 && NextIns(lines[1..], c.pos) ==> !pending)
      && Tame(lines[1..], c', lines[0].ALabel? || (pending && c'.pos == c.pos))
  }

  /** The labels after the pending one has been moved by the instruction to come. */
  function Settle(labels: seq<LabelDef>, lines: seq<AsmLine>, pos: nat): seq<LabelDef> {
    if pos % 4 != 0 && NextIns(lines, pos) then Bump(labels, pos, AlignUp(pos)) else labels
  }

  ghost predicate Below(labels: seq<LabelDef>, pos: nat, pending: bool) {
    forall i :: 0 <= i < |labels| ==> labels[i].offset < pos || (labels[i].offset == pos && pending)
  }

  lemma {:induction false} BumpNothing(labels: seq<LabelDef>, from: nat, to: nat)
    requires forall i :: 0 <= i < |labels| ==> labels[i].offset != from
    ensures Bump(labels, from, to) == labels
  {
    if labels != [] {
      BumpNothing(labels[1..], from, to);
    }
  }

  lemma {:induction false} BumpLast(labels: seq<LabelDef>, l: LabelDef, to: nat)
    requires forall i :: 0 <= i < |labels| ==> labels[i].offset != l.offset
    ensures Bump(labels + [l], l.offset, to) == labels + [l.(offset := to)]
  {
    if labels == [] {
      assert [l][1..] == [];
    } else {
      assert (labels + [l])[1..] == labels[1..] + [l];
      BumpLast(labels[1..], l, to);
    }
  }

  lemma {:induction false} BumpBelow(labels: seq<LabelDef>, from: nat, to: nat, pending: bool)
    requires Below(labels, from, pending) && from < to
    ensures Below(Bump(labels, from, to), to + 4, false)
  {
    if labels != [] {
      assert Below(labels[1..], from, pending) by {
        forall i | 0 <= i < |labels[1..]|
          ensures labels[1..][i].offset < from || (labels[1..][i].offset == from && pending)
        {
          assert labels[1..][i] == labels[i + 1];
        }
      }
      assert labels[0].offset <= from;
      BumpBelow(labels[1..], from, to, pending);
    }
  }

  lemma NamesBump(labels: seq<LabelDef>, from: nat, to: nat)
    ensures NamesOf(Bump(labels, from, to)) == NamesOf(labels)
  {
  }

  lemma StepCursor(st: Asm, line: AsmLine)
    ensures Step1(st, line).Some? <==> Advance(st.At(), line).Some?
    ensures Step1(st, line).Some? ==> Advance(st.At(), line) == Some(Step1(st, line).value.At())
  {
    hide Encode, InsertAt, LinksOf, Piece;
    if line.AIns? {
      NamesBump(st.labels, st.pos, AlignUp(st.pos));
    } else if line.ALabel? {
      var l := LabelDef(Qualify(st.last, line.name), st.pos);
      assert NamesOf(st.labels + [l]) == NamesOf(st.labels) + [l.name];
    }
  }

  /** One step's effect on the table: what the label list will be once settled. */
  ghost predicate Settled(st: Asm, lines: seq<AsmLine>, pending: bool)
    requires lines != [] && Step1(st, lines[0]).Some?
  {
    var t := Step1(st, lines[0]).value;
    var now := lines[0].ALabel? || (pending && t.pos == st.pos);
    && Below(t.labels, t.pos, now)
    && Settle(t.labels, lines[1..], t.pos) ==
       Settle(st.labels, lines, st.pos) +
       (if lines[0].ALabel? then [LabelDef(Qualify(st.last, lines[0].name), LabelAddr(lines[1..], st.pos))] else [])
  }

  lemma SettleLabel(st: Asm, lines: seq<AsmLine>, pending: bool)
    requires lines != [] && lines[0].ALabel? && Step1(st, lines[0]).Some?
    requires st.pos % 4 != 0 && NextIns(lines[1..], st.pos) ==> !pending
    requires Below(st.labels, st.pos, pending)
    ensures Settled(st, lines, pending)
  {
    hide Bump, NamesOf;
    if st.pos % 4 != 0 && NextIns(lines[1..], st.pos) {
      BumpNothing(st.labels, st.pos, AlignUp(st.pos));
      BumpLast(st.labels, LabelDef(Qualify(st.last, lines[0].name), st.pos), AlignUp(st.pos));
    }
  }

  lemma SettleIns(st: Asm, lines: seq<AsmLine>, pending: bool)
    requires lines != [] && lines[0].AIns? && Step1(st, lines[0]).Some?
    requires Below(st.labels, st.pos, pending)
    ensures Settled(st, lines, pending)
  {
    hide Encode, InsertAt, LinksOf, Piece, Bump, NamesOf;
    if st.pos % 4 != 0 {
      BumpBelow(st.labels, st.pos, AlignUp(st.pos), pending);
    }
  }

  lemma SettleOther(st: Asm, lines: seq<AsmLine>, pending: bool)
    requires lines != [] && !lines[0].AIns? && !lines[0].ALabel? && Step1(st, lines[0]).Some?
    requires Below(st.labels, st.pos, pending) && (lines[0].AOrg? ==> st.pos <= lines[0].addr)
    ensures Settled(st, lines, pending)
  {
    hide Encode, InsertAt, LinksOf, Piece, Bump, NamesOf;
    var t := Step1(st, lines[0]).value;
    if t.pos != st.pos {
      BumpNothing(st.labels, t.pos, AlignUp(t.pos));
    }
  }

  lemma SettleStep(st: Asm, lines: seq<AsmLine>, pending: bool)
    requires lines != [] && Step1(st, lines[0]).Some?
    requires Tame(lines, st.At(), pending) && Below(st.labels, st.pos, pending)
    ensures var t := Step1(st, lines[0]).value;
            Tame(lines[1..], t.At(), lines[0].ALabel? || (pending && t.pos == st.pos))
    ensures Settled(st, lines, pending)
  {
    hide Encode, Step1, Settled, Below, NextIns, LinksOf;
    StepCursor(st, lines[0]);
    if lines[0].ALabel? {
      SettleLabel(st, lines, pending);
    } else if lines[0].AIns? {
      SettleIns(st, lines, pending);
    } else {
      SettleOther(st, lines, pending);
    }
    StepPosIs(st, lines[0]);
  }

  lemma StepPosIs(st: Asm, line: AsmLine)
    requires Step1(st, line).Some? && Advance(st.At(), line).Some?
    ensures Step1(st, line).value.pos == Advance(st.At(), line).value.pos
  {
  }

  /** The one pass ends with exactly the table of the first of two passes. */
  lemma {:induction false} LabelsAgree(st: Asm, lines: seq<AsmLine>, pending: bool)
    requires Tame(lines, st.At(), pending) && Below(st.labels, st.pos, pending)
    ensures Run1(st, lines).Some? <==> Table(lines, st.At()).Some?
    ensures Run1(st, lines).Some? ==>
              Run1(st, lines).value.labels == Settle(st.labels, lines, st.pos) + Table(lines, st.At()).value
    decreases |lines|
  {
    hide Step1, Advance, Tame, Below, Settle;
    if lines == [] {
      SettleNone(st.labels, st.pos);
    } else {
      StepCursor(st, lines[0]);
      if Step1(st, lines[0]).Some? {
        var t := Step1(st, lines[0]).value;
        SettleStep(st, lines, pending);
        LabelsAgree(t, lines[1..], lines[0].ALabel? || (pending && t.pos == st.pos));
      }
    }
  }

  lemma SettleNone(labels: seq<LabelDef>, pos: nat)
    ensures Settle(labels, [], pos) == labels
  {
  }

  // Patching ---------------------------------------------------------------------

  ghost predicate InCode(links: seq<LinkPoint>, n: nat) {
    forall i :: 0 <= i < |links| ==> links[i].offset + 2 <= n
  }

  lemma PatchOneLen(code: seq<u8>, offset: nat, a: nat)
    requires offset + 2 <= |code|
    ensures |PatchOne(code, offset, a)| == |code|
  {
  }

  lemma PatchOneAppend(code: seq<u8>, x: seq<u8>, offset: nat, a: nat)
    requires offset + 2 <= |code|
    ensures PatchOne(code + x, offset, a) == PatchOne(code, offset, a) + x
  {
    var l, r := PatchOne(code + x, offset, a), PatchOne(code, offset, a) + x;
    assert |l| == |r|;
    assert forall k :: 0 <= k < |l| ==> l[k] == r[k];
  }

  /** Code appended later does not disturb the patches of earlier link points. */
  lemma {:induction false} PatchAppend(code: seq<u8>, x: seq<u8>, links: seq<LinkPoint>, table: seq<LabelDef>)
    requires InCode(links, |code|)
    ensures PatchAll(code, links, table).Some? <==> PatchAll(code + x, links, table).Some?
    ensures PatchAll(code, links, table).Some? ==>
              |PatchAll(code, links, table).value| == |code| &&
              PatchAll(code + x, links, table).value == PatchAll(code, links, table).value + x
    decreases |links|
  {
    if links != [] {
      var l, init := links[|links| - 1], links[..|links| - 1];
      PatchAppend(code, x, init, table);
      if PatchAll(code, init, table).Some? && Lookup(table, l.symbol).Some? {
        PatchOneLen(PatchAll(code, init, table).value, l.offset, Lookup(table, l.symbol).value);
        PatchOneAppend(PatchAll(code, init, table).value, x, l.offset, Lookup(table, l.symbol).value);
      }
    }
  }

  /** Patching the placed bytes is placing the patched bytes. */
  lemma PatchPlaced(code: seq<u8>, at: nat, e: Enc, a: nat)
    requires |code| <= at && 1 <= e.field <= 2
    ensures PatchOne(InsertAt(code, e.Bytes(), at), at + e.field, a) == InsertAt(code, e.Patched(Wrap(a)), at)
  {
    AddressBytes(a);
    hide Wrap, Lo, Hi, LoByte, HiByte;
    var l := PatchOne(InsertAt(code, e.Bytes(), at), at + e.field, a);
    var r := InsertAt(code, e.Patched(Wrap(a)), at);
    assert |l| == |r|;
    forall k | 0 <= k < |l| ensures l[k] == r[k] {
      if k < at || k == at + e.field || k == at + e.field + 1 {
      } else {
        assert e.Bytes()[k - at] == e.Patched(Wrap(a))[k - at];
      }
    }
  }

  lemma AddressBytes(a: nat)
    ensures Lo(Wrap(a)) == LoByte(a) && Hi(Wrap(a)) == HiByte(a)
  {
  }

  /** Inserting behind all link points commutes with patching them. */
  lemma PatchInsert(code: seq<u8>, bytes: seq<u8>, at: nat, links: seq<LinkPoint>, table: seq<LabelDef>)
    requires |code| <= at && InCode(links, |code|)
    ensures PatchAll(InsertAt(code, bytes, at), links, table) ==
            (match PatchAll(code, links, table)
             case Some(c) => Some(InsertAt(c, bytes, at))
             case None => None)
    ensures PatchAll(code, links, table).Some? ==> |PatchAll(code, links, table).value| == |code|
  {
    hide PatchAll, InsertAt, InCode;
    var x := Fill(0, at - |code|) + bytes;
    InsertPastEnd(code, bytes, at);
    assert InsertAt(code, bytes, at) == code + x;
    PatchAppend(code, x, links, table);
    if PatchAll(code, links, table).Some? {
      var c := PatchAll(code, links, table).value;
      InsertPastEnd(c, bytes, at);
      assert c + x == c + Fill(0, at - |c|) + bytes;
    }
  }

  /** One step of the one pass, patched, is one step of the second of two passes. */
  lemma PatchStep(st: Asm, line: AsmLine, table: seq<LabelDef>)
    requires Step1(st, line).Some?
    requires |st.code| <= st.pos && InCode(st.links, |st.code|)
    requires line.AOrg? ==> st.pos <= line.addr
    requires LinksOf(line, st.At()) != [] ==> st.pos % 4 == 0
    ensures var t := Step1(st, line).value;
            && |t.code| <= t.pos && InCode(t.links, |t.code|)
            && PatchAll(t.code, t.links, table) == Emit2One(line, st.At(), PatchAll(st.code, st.links, table), table)
  {
    hide Encode, Lookup, InsertAt, PatchOne, Advance, PatchAll, InCode, AlignUp;
    StepPos(st, line);
    if Emits(line) {
      PatchInsert(st.code, Piece(line, st.values), PlaceOf(line, st.pos), st.links, table);
    }
    if LinksOf(line, st.At()) == [] {
      assert Step1(st, line).value.links == st.links;
    } else {
      LinkedStep(st, line, table);
    }
  }

  /** The case of an instruction that leaves a link point. */
  lemma LinkedStep(st: Asm, line: AsmLine, table: seq<LabelDef>)
    requires Step1(st, line).Some? && LinksOf(line, st.At()) != []
    requires |st.code| <= st.pos && InCode(st.links, |st.code|) && st.pos % 4 == 0
    ensures var t := Step1(st, line).value;
            PatchAll(t.code, t.links, table) == Emit2One(line, st.At(), PatchAll(st.code, st.links, table), table)
  {
    hide Encode, Lookup, InsertAt, PatchOne, Advance, PatchAll, InCode;
    var e := EncOf(line.i, st.values);
    var code := InsertAt(st.code, e.Bytes(), st.pos);
    var l := LinkPoint(Qualify(st.last, e.symbol), st.pos + e.field);
    PatchInsert(st.code, e.Bytes(), st.pos, st.links, table);
    PatchLast(code, st.links, l, table);
    FieldRange(line.i, st.values);
    if PatchAll(st.code, st.links, table).Some? && Lookup(table, l.symbol).Some? {
      PatchPlaced(PatchAll(st.code, st.links, table).value, st.pos, e, Lookup(table, l.symbol).value);
    }
  }

  lemma FieldRange(i: Instr, values: Values)
    requires Encode(i, values).Some?
    ensures 0 <= EncOf(i, values).field <= 2
  {
  }

  lemma PatchLast(code: seq<u8>, links: seq<LinkPoint>, l: LinkPoint, table: seq<LabelDef>)
    ensures PatchAll(code, links + [l], table) ==
            (match (PatchAll(code, links, table), Lookup(table, l.symbol))
             case (Some(c), Some(a)) => Some(PatchOne(c, l.offset, a))
             case _ => None)
  {
    assert (links + [l])[..|links|] == links;
  }

  /** Where a step leaves position and links. */
  lemma StepPos(st: Asm, line: AsmLine)
    requires Step1(st, line).Some?
    requires |st.code| <= st.pos && InCode(st.links, |st.code|)
    requires line.AOrg? ==> st.pos <= line.addr
    requires LinksOf(line, st.At()) != [] ==> st.pos % 4 == 0
    ensures var t := Step1(st, line).value;
            |t.code| <= t.pos && InCode(t.links, |t.code|)
  {
    if line.AIns? {
      FieldRange(line.i, st.values);
    }
    hide Encode;
  }

  lemma {:induction false} CodeAgrees(st: Asm, lines: seq<AsmLine>, pending: bool, table: seq<LabelDef>)
    requires Tame(lines, st.At(), pending)
    requires |st.code| <= st.pos && InCode(st.links, |st.code|) && Run1(st, lines).Some?
    ensures var t := Run1(st, lines).value;
            PatchAll(t.code, t.links, table) == Emit2(lines, st.At(), PatchAll(st.code, st.links, table), table)
    decreases |lines|
  {
    hide Step1, Advance, PatchAll, Emit2One, InCode, LinksOf, NextIns;
    if lines != [] {
      StepCursor(st, lines[0]);
      PatchStep(st, lines[0], table);
      var t := Step1(st, lines[0]).value;
      CodeAgrees(t, lines[1..], lines[0].ALabel? || (pending && t.pos == st.pos), table);
    }
  }

  lemma SettleEmpty(lines: seq<AsmLine>, pos: nat)
    ensures Settle([], lines, pos) == []
  {
  }

  /**
   Back-patching in one pass gives the image of the plain two-pass assembler, and fails
   on exactly the same programs.
   */
  lemma OnePassIsTwoPass(lines: seq<AsmLine>)
    requires Tame(lines, START.At(), false)
    ensures Assemble1(lines) == Assemble2(lines)
  {
    hide Run1, Table, Emit2, PatchAll, Tame, Settle;
    LabelsAgree(START, lines, false);
    SettleEmpty(lines, 0);
    if Run1(START, lines).Some? {
      var t := Run1(START, lines).value;
      assert t.labels == Table(lines, START.At()).value;
      CodeAgrees(START, lines, false, t.labels);
      assert PatchAll([], [], t.labels) == Some([]) by { NoPatches([], t.labels); }
    }
  }

  lemma NoPatches(code: seq<u8>, table: seq<LabelDef>)
    ensures PatchAll(code, [], table) == Some(code)
  {
  }

  // What the conditions keep out -----------------------------------------------------

  /** The recorded link point is the instruction's own address field exactly when the
      instruction needed no alignment; otherwise it lies before the instruction's field. */
  lemma LinkHitsField(st: Asm, line: AsmLine)
    requires LinksOf(line, st.At()) != []
    ensures LinksOf(line, st.At())[0].offset == PlaceOf(line, st.pos) + EncOf(line.i, st.values).field
            <==> st.pos % 4 == 0
    ensures LinksOf(line, st.At())[0].offset <= PlaceOf(line, st.pos) + EncOf(line.i, st.values).field
  {
    hide Encode;
  }

  /** Of several labels at one misaligned position only the first moves with the instruction
      placed behind them: every later one keeps an address in the padding. */
  lemma LaterLabelStays(st: Asm, line: AsmLine, i: nat, j: nat)
    requires line.AIns? && Step1(st, line).Some? && st.pos % 4 != 0
    requires i < j < |st.labels| && st.labels[i].offset == st.labels[j].offset == st.pos
    ensures Step1(st, line).value.labels[j].offset < PlaceOf(line, st.pos)
  {
    hide Encode, InsertAt;
    BumpLater(st.labels, st.pos, AlignUp(st.pos), i, j);
  }

  lemma {:induction false} BumpLater(labels: seq<LabelDef>, from: nat, to: nat, i: nat, j: nat)
    requires i < j < |labels| && labels[i].offset == from
    ensures Bump(labels, from, to)[j] == labels[j]
  {
    if labels[0].offset != from {
      BumpLater(labels[1..], from, to, i - 1, j - 1);
    }
  }
}
