/**
 Across the tools: the object the assembler writes, as the linker reads it, and linking
 it alone against the assembler's own raw binary.
 */
module Objects {
  import opened Words
  import opened Assembly
  import opened Iof
  import opened Placement
  import opened Linking
  import opened LinkOutput


  /** Names as the bytes they are stored as. */
  function Ascii(s: string): (r: Bytes)
    ensures |r| == |s|
  {
    seq(|s|, i requires 0 <= i < |s| => s[i] as int % 0x100)
  }

  /** Characters of one byte, none of them zero. */
  predicate OneByte(s: string) {
    forall i :: 0 <= i < |s| ==> 0 < s[i] as int < 0x100
  }

  lemma AsciiInjective(s: string, t: string)
    requires OneByte(s) && OneByte(t) && Ascii(s) == Ascii(t)
    ensures s == t
  {
    forall i | 0 <= i < |s| ensures s[i] == t[i] {
      assert Ascii(s)[i] == Ascii(t)[i];
    }
  }

  lemma AsciiNoNul(s: string)
    requires OneByte(s)
    ensures NoNul(Ascii(s))
  {
  }

  // What the assembler puts into an object ------------------------------------------------

  function LinkEntries(links: seq<LinkPoint>): (r: seq<Entry>)
    ensures |r| == |links|
    ensures forall i :: 0 <= i < |r| ==> r[i] == Entry(Ascii(links[i].symbol), Wrap(links[i].offset))
  {
    seq(|links|, i requires 0 <= i < |links| => Entry(Ascii(links[i].symbol), Wrap(links[i].offset)))
  }

  function LabelEntries(labels: seq<LabelDef>): (r: seq<Entry>)
    ensures |r| == |labels|
    ensures forall i :: 0 <= i < |r| ==> r[i] == Entry(Ascii(labels[i].name), Wrap(labels[i].offset))
  {
    seq(|labels|, i requires 0 <= i < |labels| => Entry(Ascii(labels[i].name), Wrap(labels[i].offset)))
  }

  /** An exported name without a label is an error. */
  function ExportEntries(exports: seq<string>, labels: seq<LabelDef>): Option<seq<Entry>> {
    if exports == [] then Some([])
    else
      match (ExportEntries(exports[..|exports| - 1], labels), Lookup(labels, exports[|exports| - 1]))
      case (Some(es), Some(a)) => Some(es + [Entry(Ascii(exports[|exports| - 1]), Wrap(a))])
      case _ => None
  }

  function AsLinks(es: seq<Entry>): (r: seq<Op>)
    ensures |r| == |es| && forall i :: 0 <= i < |r| ==> r[i] == LinkOp(es[i])
  {
    seq(|es|, i requires 0 <= i < |es| => LinkOp(es[i]))
  }

  function AsExports(es: seq<Entry>): (r: seq<Op>)
    ensures |r| == |es| && forall i :: 0 <= i < |r| ==> r[i] == ExportOp(es[i])
  {
    seq(|es|, i requires 0 <= i < |es| => ExportOp(es[i]))
  }

  function AsSymbols(es: seq<Entry>): (r: seq<Op>)
    ensures |r| == |es| && forall i :: 0 <= i < |r| ==> r[i] == SymbolOp(es[i])
  {
    seq(|es|, i requires 0 <= i < |es| => SymbolOp(es[i]))
  }

  /** The calls made on the section builder: links, then exports, then every label. */
  function ObjectOps(st: Asm): Option<seq<Op>> {
    match ExportEntries(st.exports, st.labels)
    case Some(es) => Some(AsLinks(LinkEntries(st.links)) + AsExports(es) + AsSymbols(LabelEntries(st.labels)))
    case None => None
  }

  /** The section builder before those calls; `other` is what its origin field holds when
      no origin was given. */
  function ObjectStart(st: Asm, other: u16): Builder {
    Builder(if st.origin.Some? then STATIC_ORIGIN else 0,
            if st.origin.Some? then Wrap(st.origin.value) else other, st.origin.Some?,
            st.code, Ascii("code"), [], [], [], [])
  }

  // What the linker reads -----------------------------------------------------------------

  /** The section the linker sees at `base`. */
  function LoadSection(base: Bytes): Option<Section> {
    match (Field(base, FLAG), Field(base, ORIGIN), ReadCode(base))
    case (Some(flag), Some(origin), Some(code)) =>
      (match (ReadTable(base, SYMBOLS_COUNT, SYMBOLS_ADDR), ReadTable(base, LINKS_COUNT, LINKS_ADDR),
              ReadTable(base, EXPORTS_COUNT, EXPORTS_ADDR))
       case (Some(symbols), Some(links), Some(exports)) =>
         Some(Section(flag % 2 == 1, origin, code, symbols, links, exports))
       case _ => None)
    case _ => None
  }

  /** The section an assembled state stands for. */
  function SectionOf(st: Asm, exports: seq<Entry>, other: u16): Section {
    Section(st.origin.Some?, ObjectStart(st, other).origin, StoredCode(ObjectStart(st, other)),
            LabelEntries(st.labels), LinkEntries(st.links), exports)
  }

  // Lists of builder calls -----------------------------------------------------------------

  lemma {:induction false} LinksOfAppend(a: seq<Op>, b: seq<Op>)
    ensures Iof.LinksOf(a + b) == Iof.LinksOf(a) + Iof.LinksOf(b)
    ensures ExportsOf(a + b) == ExportsOf(a) + ExportsOf(b)
    ensures SymbolsOf(a + b) == SymbolsOf(a) + SymbolsOf(b)
    decreases |b|
  {
    if b == [] {
      assert a + b == a;
    } else {
      var shorter := b[..|b| - 1];
      assert (a + b)[..|a + b| - 1] == a + shorter && (a + b)[|a + b| - 1] == b[|b| - 1];
      LinksOfAppend(a, shorter);
    }
  }

  lemma {:induction false} KindsOf(es: seq<Entry>)
    ensures Iof.LinksOf(AsLinks(es)) == es && ExportsOf(AsLinks(es)) == [] && SymbolsOf(AsLinks(es)) == []
    ensures Iof.LinksOf(AsExports(es)) == [] && ExportsOf(AsExports(es)) == es && SymbolsOf(AsExports(es)) == []
    ensures Iof.LinksOf(AsSymbols(es)) == [] && ExportsOf(AsSymbols(es)) == [] && SymbolsOf(AsSymbols(es)) == es
  {
    if es != [] {
      var shorter := es[..|es| - 1];
      KindsOf(shorter);
      assert AsLinks(es)[..|es| - 1] == AsLinks(shorter);
      assert AsExports(es)[..|es| - 1] == AsExports(shorter);
      assert AsSymbols(es)[..|es| - 1] == AsSymbols(shorter);
      assert es == shorter + [es[|es| - 1]];
    }
  }

  lemma OpsOf(l: seq<Entry>, e: seq<Entry>, s: seq<Entry>)
    ensures var ops := AsLinks(l) + AsExports(e) + AsSymbols(s);
            Iof.LinksOf(ops) == l && ExportsOf(ops) == e && SymbolsOf(ops) == s
  {
    hide AsLinks, AsExports, AsSymbols, Iof.LinksOf, ExportsOf, SymbolsOf;
    KindsOf(l);
    KindsOf(e);
    KindsOf(s);
    LinksOfAppend(AsLinks(l) + AsExports(e), AsSymbols(s));
    LinksOfAppend(AsLinks(l), AsExports(e));
  }

  /** Every name in the assembled state is plain. */
  predicate PlainNames(st: Asm) {
    && (forall i :: 0 <= i < |st.labels| ==> OneByte(st.labels[i].name))
    && (forall i :: 0 <= i < |st.links| ==> OneByte(st.links[i].symbol))
    && forall i :: 0 <= i < |st.exports| ==> OneByte(st.exports[i])
  }

  lemma {:induction false} ExportNames(exports: seq<string>, labels: seq<LabelDef>)
    requires (forall i :: 0 <= i < |exports| ==> OneByte(exports[i])) && ExportEntries(exports, labels).Some?
    ensures forall i :: 0 <= i < |ExportEntries(exports, labels).value| ==> NoNul(ExportEntries(exports, labels).value[i].name)
  {
    if exports != [] {
      ExportNames(exports[..|exports| - 1], labels);
      AsciiNoNul(exports[|exports| - 1]);
    }
  }

  lemma OpsFit(st: Asm)
    requires PlainNames(st) && ObjectOps(st).Some?
    ensures NamesFit(ObjectOps(st).value)
  {
    ExportNames(st.exports, st.labels);
    var es := ExportEntries(st.exports, st.labels).value;
    var ops := ObjectOps(st).value;
    forall i | 0 <= i < |ops| ensures NoNul(ops[i].e.name) {
      if i < |st.links| {
        AsciiNoNul(st.links[i].symbol);
      } else if i >= |st.links| + |es| {
        AsciiNoNul(st.labels[i - |st.links| - |es|].name);
      } else {
        assert ops[i] == ExportOp(es[i - |st.links|]);
      }
    }
  }

  /**
   Assembler to linker: the section the linker loads from an object has the assembled
   code, every label, every link point and every export, in order, names and addresses
   included.
   */
  lemma ObjectLoads(st: Asm, other: u16, base: Bytes)
    requires PlainNames(st) && ObjectOps(st).Some?
    requires st.origin.Some? ==> st.origin.value <= 0xffff &&
                                 (st.origin.value < |st.code| || (st.code == [] && st.origin.value == 0))
    requires Iof.Holds(AddAll(ObjectStart(st, other), ObjectOps(st).value), base)
    ensures LoadSection(base) == Some(SectionOf(st, ExportEntries(st.exports, st.labels).value, other))
  {
    hide Iof.Holds, AddAll, ReadsAs, ReadTable, ReadCode, Field, ExportEntries, NamesFit, PlainNames, StoredCode,
         LabelEntries, LinkEntries;
    var b, ops := ObjectStart(st, other), ObjectOps(st).value;
    OpsFit(st);
    NameIsPlain();
    AsciiNoNul("code");
    SectionRoundTrip(b, ops, base);
    ReadsParts(base, AddAll(b, ops), ops);
    SameFlag(b, ops, base);
    OpsOf(LinkEntries(st.links), ExportEntries(st.exports, st.labels).value, LabelEntries(st.labels));
  }

  lemma NameIsPlain()
    ensures OneByte("code")
  {
  }

  lemma ReadsParts(base: Bytes, b: Builder, ops: seq<Op>)
    requires ReadsAs(base, b, ops)
    ensures Field(base, FLAG) == Some(b.flag) && Field(base, ORIGIN) == Some(b.origin) && ReadCode(base) == Some(StoredCode(b))
    ensures ReadTable(base, SYMBOLS_COUNT, SYMBOLS_ADDR) == Some(SymbolsOf(ops))
    ensures ReadTable(base, LINKS_COUNT, LINKS_ADDR) == Some(Iof.LinksOf(ops))
    ensures ReadTable(base, EXPORTS_COUNT, EXPORTS_ADDR) == Some(ExportsOf(ops))
  {
  }

  lemma {:induction false} SameFlag(b: Builder, ops: seq<Op>, base: Bytes)
    ensures AddAll(b, ops).flag == b.flag && AddAll(b, ops).origin == b.origin
    decreases |ops|
  {
    if ops != [] {
      SameFlag(b, ops[..|ops| - 1], base);
    }
  }
}
