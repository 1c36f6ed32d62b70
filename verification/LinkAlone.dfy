/**
 Two ways to a binary: linking one relocatable object alone gives the bytes the assembler
 writes when it is asked for a raw binary.
 */
module LinkAlone {
  import opened Words
  import opened Encoding
  import ByteBuffers
  import opened Assembly
  import opened Regions
  import opened Placement
  import opened Linking
  import opened LinkOutput
  import opened Objects
  import Iof

  /** Link points lie inside the code and do not overlap. */
  ghost predicate PointsApart(links: seq<LinkPoint>, size: nat) {
    && (forall n :: 0 <= n < |links| ==> links[n].offset + 2 <= size)
    && forall n, m :: 0 <= n < m < |links| ==>
         links[n].offset + 2 <= links[m].offset || links[m].offset + 2 <= links[n].offset
  }

  /** No link point covers the offset. */
  ghost predicate Free(links: seq<LinkPoint>, a: nat) {
    forall n :: 0 <= n < |links| ==> !(links[n].offset <= a < links[n].offset + 2)
  }

  /** The word at link point n is the address of its label. */
  ghost predicate PointHolds(r: seq<u8>, l: LinkPoint, table: seq<LabelDef>) {
    && Lookup(table, l.symbol).Some? && l.offset + 2 <= |r|
    && r[l.offset] == LoByte(Lookup(table, l.symbol).value)
    && r[l.offset + 1] == HiByte(Lookup(table, l.symbol).value)
  }

  lemma PatchOneBytes(code: seq<u8>, offset: nat, a: nat)
    requires offset + 2 <= |code|
    ensures var r := PatchOne(code, offset, a);
            && |r| == |code| && r[offset] == LoByte(a) && r[offset + 1] == HiByte(a)
            && forall k :: 0 <= k < |r| && k != offset && k != offset + 1 ==> r[k] == code[k]
  {
    hide LoByte, HiByte;
  }

  /** What the assembler's back-patching leaves in every byte. */
  lemma {:induction false} PatchBytes(code: seq<u8>, links: seq<LinkPoint>, table: seq<LabelDef>)
    requires PatchAll(code, links, table).Some? && PointsApart(links, |code|)
    ensures var r := PatchAll(code, links, table).value;
            && |r| == |code|
            && (forall n :: 0 <= n < |links| ==> PointHolds(r, links[n], table))
            && forall a :: 0 <= a < |r| && Free(links, a) ==> r[a] == code[a]
    decreases |links|
  {
    hide Lookup, LoByte, HiByte, PatchOne;
    if links != [] {
      var before, l := links[..|links| - 1], links[|links| - 1];
      PatchBytes(code, before, table);
      var m, r := PatchAll(code, before, table).value, PatchAll(code, links, table).value;
      PatchOneBytes(m, l.offset, Lookup(table, l.symbol).value);
      forall n | 0 <= n < |links| ensures PointHolds(r, links[n], table) {
        if n < |links| - 1 {
          assert before[n] == links[n] && PointHolds(m, before[n], table);
        }
      }
      forall a | 0 <= a < |r| && Free(links, a) ensures r[a] == code[a] {
        assert Free(before, a);
        assert !(l.offset <= a < l.offset + 2);
      }
    }
  }

  // Symbols ------------------------------------------------------------------------------

  lemma {:induction false} LookupsAgree(labels: seq<LabelDef>, name: string)
    requires Objects.OneByte(name) && forall i :: 0 <= i < |labels| ==> Objects.OneByte(labels[i].name)
    ensures LookupSymbol(LabelEntries(labels), Ascii(name)) ==
            match Lookup(labels, name)
            case Some(a) => Some(Wrap(a))
            case None => None
  {
    if labels != [] {
      LookupsAgree(labels[1..], name);
      assert LabelEntries(labels)[1..] == LabelEntries(labels[1..]);
      if Ascii(labels[0].name) == Ascii(name) {
        AsciiInjective(labels[0].name, name);
      }
    }
  }

  // One section alone ----------------------------------------------------------------------

  /** The assembled state is one the two ways can be compared on. */
  ghost predicate Alone(st: Asm) {
    && st.origin.None? && 0 < |st.code| < 0xffff && PlainNames(st)
    && PointsApart(st.links, |st.code|)
    && (forall n :: 0 <= n < |st.links| ==> Lookup(st.labels, st.links[n].symbol).Some?)
  }

  function AloneChain(n: nat): Chain {
    [Span(false, 0, n, 0), Span(true, n, MAX_ADDR - n, 0)]
  }

  lemma AlonePlaced(s: Section)
    requires !s.fixed && 0 < |s.code| < 0xffff
    ensures PlaceAll([s]) == Placed(AloneChain(|s.code|), [Some(0)])
    ensures Placeable([s])
  {
    var sects := [s];
    var n := |s.code|;
    assert NoWhere(1) == [None];
    assert Ascending(sects, 1, 0) && Ascending(sects, 0, 0);
    assert PlaceStatics(sects, 1, EMPTY, [None]) == Placed(EMPTY, [None]);
    assert PlaceStatics(sects, 0, EMPTY, [None]) == Placed(EMPTY, [None]);
    assert Largest(sects, [None], 0) == None;
    assert Largest(sects, [None], 1) == Some(0);
    assert FirstFit(EMPTY, n) == 0;
    AlonePut(s);
    assert Largest(sects, [Some(0)], 0) == None && Largest(sects, [Some(0)], 1) == None;
    assert PlaceMovables(sects, AloneChain(n), [Some(0)]) == Placed(AloneChain(n), [Some(0)]);
    assert NoExactFill(sects, AloneChain(n), [Some(0)]);
    AloneLoop(s);
  }

  lemma AlonePut(s: Section)
    requires 0 < |s.code| < 0xffff
    ensures Put(EMPTY, [None], 0, 0, 0, |s.code|) == Placed(AloneChain(|s.code|), [Some(0)])
  {
    var r := Span(false, 0, |s.code|, 0);
    assert Regions.Insert(EMPTY, 0, r).value == AloneChain(|s.code|);
    assert [None][0 := Some(0)] == [Some(0)];
  }

  lemma AloneLoop(s: Section)
    requires 0 < |s.code| < 0xffff
    requires Largest([s], [None], 1) == Some(0) && FirstFit(EMPTY, |s.code|) == 0
    requires PlaceMovables([s], AloneChain(|s.code|), [Some(0)]) == Placed(AloneChain(|s.code|), [Some(0)])
    requires NoExactFill([s], AloneChain(|s.code|), [Some(0)])
    ensures PlaceMovables([s], EMPTY, [None]) == Placed(AloneChain(|s.code|), [Some(0)])
    ensures NoExactFill([s], EMPTY, [None])
  {
    hide Put, Regions.Insert, Largest;
    AlonePut(s);
    assert PutMovable([s], 0, EMPTY, [None]) == Placed(AloneChain(|s.code|), [Some(0)]);
  }

  // The image ------------------------------------------------------------------------------

  lemma SectionParts(st: Asm, exports: seq<Iof.Entry>, other: u16)
    requires Alone(st)
    ensures var s := SectionOf(st, exports, other);
            && !s.fixed && s.code == st.code && s.symbols == LabelEntries(st.labels)
            && s.links == LinkEntries(st.links) && s.exports == exports
            && (forall n :: 0 <= n < |s.links| ==> s.links[n] == Iof.Entry(Ascii(st.links[n].symbol), st.links[n].offset))
            && GoodLinks(s)
  {
  }

  /** The address of a link point's label, as the linker resolves it. */
  lemma LinkResolves(st: Asm, exports: seq<Iof.Entry>, other: u16, gs: seq<Global>, n: nat)
    requires Alone(st) && n < |st.links|
    ensures var s := SectionOf(st, exports, other);
            |s.links| == |st.links| &&
            Resolve([s], [Some(0)], gs, 0, s.links[n].name) == Some(Wrap(Lookup(st.labels, st.links[n].symbol).value))
  {
    hide LabelEntries, LinkEntries, Lookup, LookupSymbol, Ascii;
    SectionParts(st, exports, other);
    LookupsAgree(st.labels, st.links[n].symbol);
  }

  lemma {:induction false} SectionLinks(st: Asm, exports: seq<Iof.Entry>, other: u16, gs: seq<Global>, out: Image, n: nat)
    requires Alone(st) && n <= |st.links| && |out| == |st.code|
    ensures var s := SectionOf(st, exports, other);
            |s.links| == |st.links| && LinkSection([s], [Some(0)], gs, out, 0, n).Good?
  {
    hide LabelEntries, LinkEntries, Lookup, Resolve, SectionOf, Ascii, GoodLinks;
    SectionParts(st, exports, other);
    if n > 0 {
      SectionLinks(st, exports, other, gs, out, n - 1);
      LinkResolves(st, exports, other, gs, n - 1);
    }
  }

  function AloneGlobals(exports: seq<Iof.Entry>): seq<Global> {
    if exports == [] then [] else ExportsAt(exports, 0)
  }

  lemma AloneGlobalsAre(s: Section)
    ensures Globals([s], [Some(0)], 1) == Good(AloneGlobals(s.exports))
  {
    assert Globals([s], [Some(0)], 0) == Good([]);
    assert [] + ExportsAt(s.exports, 0) == ExportsAt(s.exports, 0);
  }

  lemma AloneMax(n: nat)
    ensures MaxAddr(AloneChain(n)) == n
  {
    var c := AloneChain(n);
    assert c[..1] == [Span(false, 0, n, 0)];
    assert MaxAddr(c[..1]) == n;
  }

  /** Linking goes through. */
  lemma AloneLinked(st: Asm, exports: seq<Iof.Entry>, other: u16) returns (out: Image)
    requires Alone(st)
    ensures var s := SectionOf(st, exports, other);
            && LinkAll([s]) == Good(out)
            && LinkedTo([s], AloneChain(|st.code|), [Some(0)], AloneGlobals(exports), out)
  {
    hide SectionOf, LinkSection, Globals, Base, AloneGlobals, GoodLinks, LinkEntries, LabelEntries, PlaceAll,
         Placeable, Fit, LinkedTo, Alone;
    var s := SectionOf(st, exports, other);
    AloneSize(st);
    SectionParts(st, exports, other);
    AlonePlaced(s);
    AloneGlobalsAre(s);
    AloneMax(|st.code|);
    var c := AloneChain(|st.code|);
    var base := Base([s], c);
    SectionLinks(st, exports, other, AloneGlobals(exports), base, |st.links|);
    OneSection(s, AloneGlobals(exports), base);
    out := LinkSection([s], [Some(0)], AloneGlobals(exports), base, 0, |s.links|).v;
    assert LinkImage([s], c, [Some(0)]) == Good(out);
    LinkedImage([s], AloneGlobals(exports), out);
  }

  lemma AloneSize(st: Asm)
    requires Alone(st)
    ensures 0 < |st.code| < 0xffff
  {
  }

  lemma OneSection(s: Section, gs: seq<Global>, base: Image)
    ensures LinkFirst([s], [Some(0)], gs, base, 1) == LinkSection([s], [Some(0)], gs, base, 0, |s.links|)
  {
    hide LinkSection;
    assert LinkFirst([s], [Some(0)], gs, base, 0) == Good(base);
  }

  /** A covered byte of the linked image. */
  lemma CoveredByte(st: Asm, exports: seq<Iof.Entry>, other: u16, out: Image, r: seq<u8>, n: nat, a: nat)
    requires Alone(st) && n < |st.links| && st.links[n].offset <= a < st.links[n].offset + 2
    requires LinkedTo([SectionOf(st, exports, other)], AloneChain(|st.code|), [Some(0)], AloneGlobals(exports), out)
    requires PointHolds(r, st.links[n], st.labels) && a < |r| && a < |out|
    ensures out[a] == Some(r[a])
  {
    hide LinkedTo, SectionOf, AloneGlobals, Lookup, Resolve, LinkEntries, LabelEntries;
    var s := SectionOf(st, exports, other);
    SectionParts(st, exports, other);
    LinkPointHolds([s], AloneChain(|st.code|), [Some(0)], AloneGlobals(exports), out, 0, n);
    LinkResolves(st, exports, other, AloneGlobals(exports), n);
    AddressBytes(Lookup(st.labels, st.links[n].symbol).value);
  }

  lemma FreeByte(st: Asm, exports: seq<Iof.Entry>, other: u16, out: Image, a: nat)
    requires Alone(st) && a < |st.code| && Free(st.links, a)
    requires LinkedTo([SectionOf(st, exports, other)], AloneChain(|st.code|), [Some(0)], AloneGlobals(exports), out)
    ensures |out| == |st.code| && out[a] == Some(st.code[a])
  {
    hide LinkedTo, AloneGlobals, LinkEntries, LabelEntries, SectionOf, MaxAddr;
    var s := SectionOf(st, exports, other);
    SectionParts(st, exports, other);
    AloneMax(|st.code|);
    var i := ImageByte([s], AloneChain(|st.code|), [Some(0)], AloneGlobals(exports), out, a);
    assert i == 0;
    NotCovered(st, s, a);
  }

  lemma NotCovered(st: Asm, s: Section, a: nat)
    requires Free(st.links, a) && |s.links| == |st.links|
    requires forall n :: 0 <= n < |s.links| ==> s.links[n] == Iof.Entry(Ascii(st.links[n].symbol), st.links[n].offset as int % 0x1_0000)
    requires forall n :: 0 <= n < |st.links| ==> st.links[n].offset < 0x1_0000
    ensures !Covered([s], [Some(0)], 0, a)
  {
    forall n: nat | n < |s.links|
      ensures !(LinkAt([s], [Some(0)], 0, n) <= a < LinkAt([s], [Some(0)], 0, n) + 2)
    {
      assert !(st.links[n].offset <= a < st.links[n].offset + 2);
    }
  }

  /**
   The linker's image of one relocatable object alone is, byte for byte, the assembler's
   raw binary of the same source.
   */
  lemma LinkedAloneIsRaw(st: Asm, exports: seq<Iof.Entry>, other: u16, r: seq<u8>) returns (out: Image)
    requires Alone(st) && PatchAll(st.code, st.links, st.labels) == Some(r)
    ensures LinkAll([SectionOf(st, exports, other)]) == Good(out)
    ensures |out| == |r| && forall a :: 0 <= a < |r| ==> out[a] == Some(r[a])
  {
    hide LinkAll, LinkedTo, SectionOf, AloneGlobals, PatchAll, PointHolds, Free;
    out := AloneLinked(st, exports, other);
    PatchBytes(st.code, st.links, st.labels);
    AloneSize(st);
    SomeFree(st, exports, other, out);
    forall a | 0 <= a < |r| ensures out[a] == Some(r[a]) {
      if Free(st.links, a) {
        FreeByte(st, exports, other, out, a);
      } else {
        var n := Coverer(st.links, a);
        CoveredByte(st, exports, other, out, r, n, a);
      }
    }
  }

  lemma Coverer(links: seq<LinkPoint>, a: nat) returns (n: nat)
    requires !Free(links, a)
    ensures n < |links| && links[n].offset <= a < links[n].offset + 2
  {
    n :| n < |links| && links[n].offset <= a < links[n].offset + 2;
  }

  lemma SomeFree(st: Asm, exports: seq<Iof.Entry>, other: u16, out: Image)
    requires Alone(st)
    requires LinkedTo([SectionOf(st, exports, other)], AloneChain(|st.code|), [Some(0)], AloneGlobals(exports), out)
    ensures |out| == |st.code|
  {
    hide LinkedTo, AloneGlobals, LinkEntries, LabelEntries, SectionOf, MaxAddr;
    AloneMax(|st.code|);
    var i := ImageByte([SectionOf(st, exports, other)], AloneChain(|st.code|), [Some(0)], AloneGlobals(exports), out, 0);
  }
}
