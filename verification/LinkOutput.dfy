/**
 The linker's second half: the output buffer is allocated, filled region by region and
 patched link by link, and the whole run from sections to image.
 */
module LinkOutput {
  import opened Words
  import opened Regions
  import opened RegionChain
  import opened Placement
  import opened Linking
  import opened Linker
  import Iof

  // Chains that fit their output, whole or not --------------------------------------------

  /** What even a chain that has lost its tail keeps. */
  ghost predicate Fit(sects: seq<Section>, c: Chain) {
    && c != [] && Contiguous(c, 0) && Settled(c)
    && forall j :: 0 <= j < |c| && !c[j].free ==> c[j].owner < |sects| && c[j].size == SizeOf(sects, c[j].owner)
  }

  lemma PutFits(sects: seq<Section>, c: Chain, where: Where, i: nat, k: nat, start: int)
    requires Fit(sects, c) && i < |c| && k < |sects| && |where| == |sects|
    requires Put(c, where, i, k, start, SizeOf(sects, k)).Placed?
    ensures Fit(sects, Put(c, where, i, k, start, SizeOf(sects, k)).chain)
  {
    hide Contiguous, EndOf, Settled, Insert;
    var r := Span(false, start, SizeOf(sects, k), k);
    InsertTiles(c, i, r, 0, EndOf(c, 0));
    InsertSettled(c, i, r);
    InsertHas(c, i, r);
    var d := Put(c, where, i, k, start, SizeOf(sects, k)).chain;
    forall j | 0 <= j < |d| && !d[j].free ensures d[j].owner < |sects| && d[j].size == SizeOf(sects, d[j].owner) {
      InsertOnly(c, i, r, d[j]);
      if d[j] in c {
        var n :| 0 <= n < |c| && c[n] == d[j];
      }
    }
  }

  lemma {:induction false} StaticsFit(sects: seq<Section>, k: nat, c: Chain, where: Where)
    requires Fit(sects, c) && |where| == |sects| && k <= |sects| && PlaceStatics(sects, k, c, where).Placed?
    ensures Fit(sects, PlaceStatics(sects, k, c, where).chain)
    decreases |sects| - k
  {
    hide Fit, Put;
    if k < |sects| {
      if sects[k].fixed {
        var i := FindAddr(c, sects[k].origin);
        PutFits(sects, c, where, i, k, sects[k].origin);
        var o := PutStatic(sects, k, c, where);
        PutLength(c, where, i, k, sects[k].origin, SizeOf(sects, k));
        StaticsFit(sects, k + 1, o.chain, o.where);
      } else {
        StaticsFit(sects, k + 1, c, where);
      }
    }
  }

  lemma PutLength(c: Chain, where: Where, i: nat, k: nat, start: int, size: int)
    requires i < |c| && k < |where| && Put(c, where, i, k, start, size).Placed?
    ensures Put(c, where, i, k, start, size).where == where[k := Some(start)]
  {
    hide Insert;
  }

  lemma {:induction false} MovablesFit(sects: seq<Section>, c: Chain, where: Where)
    requires Fit(sects, c) && |where| == |sects| && PlaceMovables(sects, c, where).Placed?
    ensures Fit(sects, PlaceMovables(sects, c, where).chain)
    decreases Unplaced(sects, where, |sects|)
  {
    hide Fit, Put, Unplaced;
    var l := Largest(sects, where, |sects|);
    if l.Some? {
      var k := l.value;
      var i := FirstFit(c, SizeOf(sects, k));
      PutFits(sects, c, where, i, k, c[i].start);
      PutLength(c, where, i, k, c[i].start, SizeOf(sects, k));
      UnplacedDrops(sects, where, k, c[i].start, |sects|);
      var o := PutMovable(sects, k, c, where);
      MovablesFit(sects, o.chain, o.where);
    }
  }

  lemma PlacementFits(sects: seq<Section>)
    requires PlaceAll(sects).Placed?
    ensures Fit(sects, PlaceAll(sects).chain)
  {
    hide PlaceStatics, PlaceMovables;
    EndOfOne(EMPTY[0], 0);
    var s := PlaceStatics(sects, 0, EMPTY, NoWhere(|sects|));
    StaticsFit(sects, 0, EMPTY, NoWhere(|sects|));
    MovablesFit(sects, s.chain, s.where);
  }

  lemma MaxAddrNext(c: Chain, i: nat)
    requires i < |c|
    ensures MaxAddr(c[..i + 1]) == if c[i].free then MaxAddr(c[..i]) else c[i].End()
  {
    assert c[..i + 1][..i] == c[..i] && c[..i + 1][i] == c[i];
  }

  /** Allocated regions, and free ones that are not last, lie inside the buffer. */
  lemma InBuffer(sects: seq<Section>, c: Chain, i: nat)
    requires Fit(sects, c) && i < |c| && (!c[i].free || i < |c| - 1)
    ensures 0 <= c[i].start && 0 <= c[i].size && c[i].End() <= MaxAddr(c)
  {
    hide Contiguous, MaxAddr;
    SplitAt(c, i, 0);
    if c[i].free {
      SplitAt(c, i + 1, 0);
      InOrder(c, i, i + 1, 0);
      MaxAddrAtLeast(c, i + 1);
    } else {
      MaxAddrAtLeast(c, i);
    }
  }

  // The buffer ----------------------------------------------------------------------------

  method WriteBytes(out: array<Option<u8>>, at: int, bytes: seq<u8>)
    requires 0 <= at && at + |bytes| <= out.Length
    modifies out
    ensures out[..] == Blit(old(out[..]), at, bytes)
  {
    for i := 0 to |bytes|
      invariant forall a :: 0 <= a < out.Length ==>
                  out[a] == if at <= a < at + i then Some(bytes[a - at]) else old(out[a])
    {
      out[at + i] := Some(bytes[i]);
    }
  }

  /** Finds the end of the last allocated region and allocates that many unwritten bytes. */
  method CreateOutputBuffer(p: Placer) returns (out: array<Option<u8>>)
    requires p.Valid() && Fit(p.sects, p.Spans())
    modifies p`chain
    ensures p.Valid() && p.Spans() == old(p.Spans()) && p.Spots() == old(p.Spots())
    ensures fresh(out) && out.Length == MaxAddr(p.Spans()) && out[..] == Fresh(MaxAddr(p.Spans()))
  {
    hide Linked, View;
    var walker: Node? := p.GetFirst();
    ghost var c := p.Spans();
    ViewAt(p.nodes);
    var maxaddr := 0;
    ghost var i: nat := 0;
    while walker != null
      invariant i <= |c| && walker == if i < |c| then p.nodes[i] else null
      invariant maxaddr == MaxAddr(c[..i])
      modifies {}
      decreases |c| - i
    {
      MaxAddrNext(c, i);
      if !walker.free {
        maxaddr := walker.start + walker.size;
      }
      LinkedNext(p.nodes, i);
      walker := walker.next;
      i := i + 1;
    }
    assert c[..|c|] == c;
    MaxAddrNatural(p.sects, c);
    out := new Option<u8>[maxaddr](_ => None);
  }

  lemma MaxAddrNatural(sects: seq<Section>, c: Chain)
    requires Fit(sects, c)
    ensures 0 <= MaxAddr(c)
  {
    hide Contiguous;
    if MaxAddr(c) != 0 {
      var i := MaxAddrIs(c);
      InBuffer(sects, c, i);
    }
  }

  method CopyCodeSections(p: Placer, out: array<Option<u8>>)
    requires p.Valid() && Fit(p.sects, p.Spans()) && out.Length == MaxAddr(p.Spans())
    modifies p`chain, out
    ensures p.Valid() && p.Spans() == old(p.Spans()) && p.Spots() == old(p.Spots())
    ensures out[..] == Copied(p.sects, p.Spans(), old(out[..]), |p.Spans()|)
  {
    hide Linked, View, Fit, MaxAddr;
    var region: Node? := p.GetFirst();
    ghost var c := p.Spans();
    ViewAt(p.nodes);
    ghost var i: nat := 0;
    while region != null
      invariant i <= |c| && region == if i < |c| then p.nodes[i] else null
      invariant out[..] == Copied(p.sects, c, old(out[..]), i)
      modifies out
      decreases |c| - i
    {
      if !region.free {
        InBuffer(p.sects, c, i);
        OwnerFits(p.sects, c, i);
        WriteBytes(out, region.start, p.sects[region.owner].code);
      }
      LinkedNext(p.nodes, i);
      region := region.next;
      i := i + 1;
    }
  }

  lemma OwnerFits(sects: seq<Section>, c: Chain, i: nat)
    requires Fit(sects, c) && i < |c| && !c[i].free
    ensures c[i].owner < |sects| && c[i].size == |sects[c[i].owner].code|
  {
  }

  method ZeroFreeSections(p: Placer, out: array<Option<u8>>)
    requires p.Valid() && Fit(p.sects, p.Spans()) && out.Length == MaxAddr(p.Spans())
    modifies p`chain, out
    ensures p.Valid() && p.Spans() == old(p.Spans()) && p.Spots() == old(p.Spots())
    ensures out[..] == Zeroed(p.Spans(), old(out[..]), |p.Spans()| - 1)
  {
    hide Linked, View, Fit, MaxAddr;
    var region := p.GetFirst();
    ghost var c := p.Spans();
    ViewAt(p.nodes);
    ghost var i: nat := 0;
    LinkedNext(p.nodes, i);
    while region.next != null
      invariant i < |c| && region == p.nodes[i] && region.next == if i + 1 < |c| then p.nodes[i + 1] else null
      invariant out[..] == Zeroed(c, old(out[..]), i)
      modifies out
      decreases |c| - i
    {
      if region.free {
        InBuffer(p.sects, c, i);
        WriteBytes(out, region.start, Zeros(region.size));
      }
      region := region.next;
      i := i + 1;
      LinkedNext(p.nodes, i);
    }
  }

  // Symbols -------------------------------------------------------------------------------

  method ResolveLocalSymbol(table: seq<Symbol>, name: Iof.Bytes) returns (r: Option<u16>)
    ensures r == LookupSymbol(table, name)
  {
    for i := 0 to |table|
      invariant LookupSymbol(table, name) == LookupSymbol(table[i..], name)
    {
      if table[i].name == name {
        return Some(table[i].addr);
      }
      assert table[i..][1..] == table[i + 1..];
    }
    r := None;
  }

  method ResolveGlobalSymbol(table: seq<Global>, name: Iof.Bytes) returns (r: Option<int>)
    ensures r == LookupGlobal(table, name)
  {
    for i := 0 to |table|
      invariant LookupGlobal(table, name) == LookupGlobal(table[i..], name)
    {
      if table[i].name == name {
        return Some(table[i].addr);
      }
      assert table[i..][1..] == table[i + 1..];
    }
    r := None;
  }

  method CollectSymbols(p: Placer) returns (s: Status, gs: seq<Global>)
    requires p.Valid()
    ensures s != Dead && Globals(p.sects, p.Spots(), |p.sects|) == if s == Fine then Good(gs) else Undef
  {
    gs := [];
    s := Fine;
    for k := 0 to |p.sects|
      invariant s == Fine && Globals(p.sects, p.Spots(), k) == Good(gs)
    {
      ghost var before := gs;
      var exports := p.sects[k].exports;
      for i := 0 to |exports|
        invariant i > 0 ==> p.regions[k] != null
        invariant gs == before + (if i == 0 then [] else ExportsAt(exports, p.regions[k].start)[..i])
      {
        if p.regions[k] == null {
          GlobalsUndef(p.sects, p.Spots(), k, |p.sects|);
          return Lost, gs;
        }
        gs := gs + [Global(exports[i].name, p.regions[k].start + exports[i].addr)];
      }
      if exports != [] {
        assert ExportsAt(exports, p.regions[k].start)[..|exports|] == ExportsAt(exports, p.regions[k].start);
      }
    }
  }

  /** An export of a section without a region spoils the table. */
  lemma {:induction false} GlobalsUndef(sects: seq<Section>, where: Where, k: nat, n: nat)
    requires |where| == |sects| && k < n <= |sects| && Globals(sects, where, k).Good?
    requires sects[k].exports != [] && where[k].None?
    ensures Globals(sects, where, n) == Undef
  {
    if n > k + 1 {
      GlobalsUndef(sects, where, k, n - 1);
    }
  }

  // Linking -------------------------------------------------------------------------------

  ghost predicate Matches(s: Status, out: Image, r: Linkage<Image>) {
    match r
    case Good(m) => s == Fine && out == m
    case Fail => s == Dead
    case Undef => s == Lost
  }

  /** Patches one link point with the address of its symbol. */
  method LinkPoint(p: Placer, gs: seq<Global>, out: array<Option<u8>>, k: nat, n: nat) returns (s: Status)
    requires p.Valid() && k < |p.sects| && n < |p.sects[k].links|
    modifies out
    ensures Matches(s, out[..], LinkOne(p.sects, p.Spots(), gs, old(out[..]), k, n))
  {
    if p.regions[k] == null {
      return Lost;
    }
    var link := p.sects[k].links[n];
    var addr: int;
    var own := ResolveLocalSymbol(p.sects[k].symbols, link.name);
    if own.Some? {
      addr := p.regions[k].start + own.value;
    } else {
      var other := ResolveGlobalSymbol(gs, link.name);
      if other.None? {
        return Dead;
      }
      addr := other.value;
    }
    var at := p.regions[k].start + link.addr;
    if at < 0 || at + 2 > out.Length {
      return Lost;
    }
    out[at] := Some(Lo(Wrap(addr)));
    out[at + 1] := Some(Hi(Wrap(addr)));
    s := Fine;
  }

  lemma {:induction false} SectionStops(sects: seq<Section>, where: Where, gs: seq<Global>, out: Image, k: nat, m: nat, n: nat)
    requires |where| == |sects| && k < |sects| && m <= n <= |sects[k].links|
    requires !LinkSection(sects, where, gs, out, k, m).Good?
    ensures LinkSection(sects, where, gs, out, k, n) == LinkSection(sects, where, gs, out, k, m)
  {
    hide LinkOne;
    if m < n {
      SectionStops(sects, where, gs, out, k, m, n - 1);
    }
  }

  lemma {:induction false} SectionsStop(sects: seq<Section>, where: Where, gs: seq<Global>, out: Image, m: nat, n: nat)
    requires |where| == |sects| && m <= n <= |sects| && !LinkFirst(sects, where, gs, out, m).Good?
    ensures LinkFirst(sects, where, gs, out, n) == LinkFirst(sects, where, gs, out, m)
  {
    hide LinkSection;
    if m < n {
      SectionsStop(sects, where, gs, out, m, n - 1);
    }
  }

  method LinkOneSection(p: Placer, gs: seq<Global>, out: array<Option<u8>>, k: nat) returns (s: Status)
    requires p.Valid() && k < |p.sects|
    modifies out
    ensures Matches(s, out[..], LinkSection(p.sects, p.Spots(), gs, old(out[..]), k, |p.sects[k].links|))
  {
    hide LinkOne;
    for n := 0 to |p.sects[k].links|
      invariant LinkSection(p.sects, p.Spots(), gs, old(out[..]), k, n) == Good(out[..])
    {
      s := LinkPoint(p, gs, out, k, n);
      if s != Fine {
        SectionStops(p.sects, p.Spots(), gs, old(out[..]), k, n + 1, |p.sects[k].links|);
        return;
      }
    }
    s := Fine;
  }

  method LinkSections(p: Placer, gs: seq<Global>, out: array<Option<u8>>) returns (s: Status)
    requires p.Valid()
    modifies out
    ensures Matches(s, out[..], LinkFirst(p.sects, p.Spots(), gs, old(out[..]), |p.sects|))
  {
    hide LinkSection;
    for k := 0 to |p.sects|
      invariant LinkFirst(p.sects, p.Spots(), gs, old(out[..]), k) == Good(out[..])
    {
      s := LinkOneSection(p, gs, out, k);
      if s != Fine {
        SectionsStop(p.sects, p.Spots(), gs, old(out[..]), k + 1, |p.sects|);
        return;
      }
    }
    s := Fine;
  }

  /** From sections to image, as the functions define it. */
  function LinkAll(sects: seq<Section>): Linkage<Image> {
    match PlaceAll(sects)
    case Placed(c, where) =>
      PlacementFits(sects);
      PlacedLength(sects);
      LinkImage(sects, c, where)
    case Died => Fail
    case Dangling => Undef
  }

  lemma PlacedLength(sects: seq<Section>)
    requires PlaceAll(sects).Placed?
    ensures |PlaceAll(sects).where| == |sects|
  {
    hide PlaceStatics, PlaceMovables;
  }

  method WriteImage(p: Placer) returns (s: Status, out: array<Option<u8>>)
    requires p.Valid() && Fit(p.sects, p.Spans()) && |p.Spots()| == |p.sects|
    modifies p`chain
    ensures fresh(out) && Matches(s, out[..], LinkImage(p.sects, old(p.Spans()), old(p.Spots())))
  {
    hide Fit, Copied, Zeroed, LinkFirst, Globals;
    var gs;
    s, gs := CollectSymbols(p);
    out := CreateOutputBuffer(p);
    if s != Fine {
      return;
    }
    CopyCodeSections(p, out);
    ZeroFreeSections(p, out);
    s := LinkSections(p, gs, out);
  }

  /** The whole linker run. */
  method Link(sects: seq<Section>) returns (s: Status, out: array<Option<u8>>)
    ensures fresh(out) && Matches(s, out[..], LinkAll(sects))
  {
    hide PlaceStatics, PlaceMovables, LinkImage, Fit, View, NoWhere;
    var p := new Placer(sects);
    s := p.PlaceStaticRegions();
    if s == Fine {
      s := p.PlaceMovableRegions();
    }
    if s != Fine {
      out := new Option<u8>[0];
      assert PlaceAll(sects) == if s == Dead then Died else Dangling;
      return;
    }
    assert PlaceAll(sects) == Placed(p.Spans(), p.Spots());
    PlacementFits(sects);
    PlacedLength(sects);
    s, out := WriteImage(p);
  }

  /**
   The conditions under which linking is right, on the sections alone, carry over to the
   image: where they hold, `ImageByte` and `LinkPointHolds` describe every byte of it.
   */
  lemma LinkedImage(sects: seq<Section>, gs: seq<Global>, out: Image)
    requires Placeable(sects) && (forall k :: 0 <= k < |sects| ==> GoodLinks(sects[k])) && LinkAll(sects) == Good(out)
    requires PlaceAll(sects).Placed? && |PlaceAll(sects).where| == |sects|
    requires Globals(sects, PlaceAll(sects).where, |sects|) == Good(gs)
    ensures LinkedTo(sects, PlaceAll(sects).chain, PlaceAll(sects).where, gs, out)
  {
    hide PlaceAll, Sound, Placeable, GoodLinks, LinkImage, Globals;
    PlacementSound(sects);
    PlacementFits(sects);
  }
}
