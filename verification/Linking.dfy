/**
 The linked image: code copied to its region, gaps zeroed, and the address of each
 symbol written over the link points that name it.
 */
module Linking {
  import opened Words
  import opened Regions
  import opened Placement
  import Iof

  /** `Undef`: a write outside the buffer, or the region of a section that has none. */
  datatype Linkage<+T> = Good(v: T) | Fail | Undef

  /** Output memory as realloc returns it: a byte is there once it has been written. */
  type Image = seq<Option<u8>>

  /** An exported symbol and its final address. */
  datatype Global = Global(name: Iof.Bytes, addr: int)

  function LookupSymbol(table: seq<Symbol>, name: Iof.Bytes): Option<u16> {
    if table == [] then None
    else if table[0].name == name then Some(table[0].addr)
    else LookupSymbol(table[1..], name)
  }

  function LookupGlobal(table: seq<Global>, name: Iof.Bytes): Option<int> {
    if table == [] then None
    else if table[0].name == name then Some(table[0].addr)
    else LookupGlobal(table[1..], name)
  }

  /** The exports of a section that stands at `start`. */
  function ExportsAt(exports: seq<Symbol>, start: int): (r: seq<Global>)
    ensures |r| == |exports|
    ensures forall i :: 0 <= i < |r| ==> r[i] == Global(exports[i].name, start + exports[i].addr)
  {
    seq(|exports|, i requires 0 <= i < |exports| => Global(exports[i].name, start + exports[i].addr))
  }

  /** All exports of the first n sections, in order. */
  function Globals(sects: seq<Section>, where: Where, n: nat): Linkage<seq<Global>>
    requires |where| == |sects| && n <= |sects|
  {
    if n == 0 then Good([])
    else
      match Globals(sects, where, n - 1)
      case Good(gs) =>
        if sects[n - 1].exports == [] then Good(gs)
        else if where[n - 1].None? then Undef
        else Good(gs + ExportsAt(sects[n - 1].exports, where[n - 1].value))
      case o => o
  }

  /** A name means the section's own symbol if it has one, else the first export. */
  function Resolve(sects: seq<Section>, where: Where, gs: seq<Global>, k: nat, name: Iof.Bytes): Option<int>
    requires |where| == |sects| && k < |sects| && where[k].Some?
  {
    match LookupSymbol(sects[k].symbols, name)
    case Some(a) => Some(where[k].value + a)
    case None => LookupGlobal(gs, name)
  }

  // The image before linking ------------------------------------------------------------

  /** Overwrites `out` with `bytes` from `at` on, as far as it reaches. */
  function Blit(out: Image, at: int, bytes: seq<u8>): (r: Image)
    ensures |r| == |out|
    ensures forall a :: 0 <= a < |r| ==> r[a] == if at <= a < at + |bytes| then Some(bytes[a - at]) else out[a]
  {
    seq(|out|, a requires 0 <= a < |out| => if at <= a < at + |bytes| then Some(bytes[a - at]) else out[a])
  }

  /** The end of the last allocated region of the chain. */
  function MaxAddr(c: Chain): int {
    if c == [] then 0
    else if !c[|c| - 1].free then c[|c| - 1].End()
    else MaxAddr(c[..|c| - 1])
  }

  function CodeOf(sects: seq<Section>, s: Span): seq<u8> {
    if s.owner < |sects| then sects[s.owner].code else []
  }

  function Fresh(n: int): (r: Image)
    ensures |r| == if n < 0 then 0 else n
    ensures forall a :: 0 <= a < |r| ==> r[a] == None
  {
    seq(if n < 0 then 0 else n, _ => None)
  }

  function Zeros(n: int): (r: seq<u8>)
    ensures |r| == (if n < 0 then 0 else n) && forall i :: 0 <= i < |r| ==> r[i] == 0
  {
    seq(if n < 0 then 0 else n, _ => 0)
  }

  function Copied(sects: seq<Section>, c: Chain, out: Image, n: nat): (r: Image)
    requires n <= |c|
    ensures |r| == |out|
  {
    if n == 0 then out
    else
      var before := Copied(sects, c, out, n - 1);
      if c[n - 1].free then before else Blit(before, c[n - 1].start, CodeOf(sects, c[n - 1]))
  }

  function Zeroed(c: Chain, out: Image, n: nat): (r: Image)
    requires n <= |c|
    ensures |r| == |out|
  {
    if n == 0 then out
    else
      var before := Zeroed(c, out, n - 1);
      if c[n - 1].free then Blit(before, c[n - 1].start, Zeros(c[n - 1].size)) else before
  }

  /** Every free region but the last region of the chain is zeroed. */
  function Base(sects: seq<Section>, c: Chain): (r: Image)
    requires c != []
    ensures |r| == if MaxAddr(c) < 0 then 0 else MaxAddr(c)
  {
    Zeroed(c, Copied(sects, c, Fresh(MaxAddr(c)), |c|), |c| - 1)
  }

  // Linking ----------------------------------------------------------------------------

  function WriteWord(out: Image, at: int, v: u16): (r: Image)
    requires 0 <= at && at + 2 <= |out|
    ensures |r| == |out| && r[at] == Some(Lo(v)) && r[at + 1] == Some(Hi(v))
    ensures forall a :: 0 <= a < |r| && a != at && a != at + 1 ==> r[a] == out[a]
  {
    out[at := Some(Lo(v))][at + 1 := Some(Hi(v))]
  }

  /** Where link n of section k is written. */
  function LinkAt(sects: seq<Section>, where: Where, k: nat, n: nat): int
    requires |where| == |sects| && k < |sects| && where[k].Some? && n < |sects[k].links|
  {
    where[k].value + sects[k].links[n].addr
  }

  /** One link point of section k. */
  function LinkOne(sects: seq<Section>, where: Where, gs: seq<Global>, out: Image, k: nat, n: nat): Linkage<Image>
    requires |where| == |sects| && k < |sects| && n < |sects[k].links|
  {
    if where[k].None? then Undef
    else
      match Resolve(sects, where, gs, k, sects[k].links[n].name)
      case None => Fail
      case Some(a) =>
        var at := LinkAt(sects, where, k, n);
        if 0 <= at && at + 2 <= |out| then Good(WriteWord(out, at, Wrap(a))) else Undef
  }

  function LinkSection(sects: seq<Section>, where: Where, gs: seq<Global>, out: Image, k: nat, n: nat): (r: Linkage<Image>)
    requires |where| == |sects| && k < |sects| && n <= |sects[k].links|
    ensures r.Good? ==> |r.v| == |out|
  {
    if n == 0 then Good(out)
    else
      match LinkSection(sects, where, gs, out, k, n - 1)
      case Good(m) => LinkOne(sects, where, gs, m, k, n - 1)
      case o => o
  }

  function LinkFirst(sects: seq<Section>, where: Where, gs: seq<Global>, out: Image, k: nat): (r: Linkage<Image>)
    requires |where| == |sects| && k <= |sects|
    ensures r.Good? ==> |r.v| == |out|
  {
    if k == 0 then Good(out)
    else
      match LinkFirst(sects, where, gs, out, k - 1)
      case Good(m) => LinkSection(sects, where, gs, m, k - 1, |sects[k - 1].links|)
      case o => o
  }

  /** The whole image of a placement. */
  function LinkImage(sects: seq<Section>, c: Chain, where: Where): Linkage<Image>
    requires |where| == |sects| && c != []
  {
    match Globals(sects, where, |sects|)
    case Good(gs) => LinkFirst(sects, where, gs, Base(sects, c), |sects|)
    case Fail => Fail
    case Undef => Undef
  }

  // The bytes before linking ------------------------------------------------------------

  lemma {:induction false} CopiedByte(sects: seq<Section>, c: Chain, out: Image, n: nat, i: nat, a: int)
    requires n <= |c| && i < |c| && Contiguous(c, 0) && c[i].start <= a < c[i].End() && 0 <= a < |out|
    requires forall j :: 0 <= j < |c| && !c[j].free ==> c[j].size == |CodeOf(sects, c[j])|
    ensures Copied(sects, c, out, n)[a] ==
            if i < n && !c[i].free then Some(CodeOf(sects, c[i])[a - c[i].start]) else out[a]
  {
    hide Contiguous, CodeOf;
    if n > 0 {
      CopiedByte(sects, c, out, n - 1, i, a);
      OneRegion(c, n - 1, i, a);
    }
  }

  lemma {:induction false} ZeroedByte(c: Chain, out: Image, n: nat, i: nat, a: int)
    requires n <= |c| && i < |c| && Contiguous(c, 0) && c[i].start <= a < c[i].End() && 0 <= a < |out|
    ensures Zeroed(c, out, n)[a] == if i < n && c[i].free then Some(0) else out[a]
  {
    hide Contiguous;
    if n > 0 {
      ZeroedByte(c, out, n - 1, i, a);
      OneRegion(c, n - 1, i, a);
      SizeNatural(c, n - 1);
    }
  }

  lemma SizeNatural(c: Chain, i: nat)
    requires i < |c| && Contiguous(c, 0)
    ensures c[i].size >= 0
  {
    SplitAt(c, i, 0);
  }

  /** An address belongs to one region only. */
  lemma OneRegion(c: Chain, j: nat, i: nat, a: int)
    requires j < |c| && i < |c| && Contiguous(c, 0) && c[i].start <= a < c[i].End()
    ensures c[j].start <= a < c[j].End() <==> j == i
  {
    if j < i { InOrder(c, j, i, 0); } else if i < j { InOrder(c, i, j, 0); }
  }

  lemma {:induction false} MaxAddrIs(c: Chain) returns (i: nat)
    requires MaxAddr(c) != 0
    ensures i < |c| && !c[i].free && c[i].End() == MaxAddr(c)
    ensures forall j :: i < j < |c| ==> c[j].free
  {
    if !c[|c| - 1].free {
      i := |c| - 1;
    } else {
      i := MaxAddrIs(c[..|c| - 1]);
    }
  }

  lemma {:induction false} MaxAddrAtLeast(c: Chain, i: nat)
    requires i < |c| && !c[i].free && Contiguous(c, 0)
    ensures c[i].End() <= MaxAddr(c)
  {
    if !c[|c| - 1].free {
      if i < |c| - 1 {
        InOrder(c, i, |c| - 1, 0);
        SizeNatural(c, |c| - 1);
      }
    } else {
      var d := c[..|c| - 1];
      assert c == d + [c[|c| - 1]] && d[i] == c[i];
      EndOfAppend(d, [c[|c| - 1]], 0);
      MaxAddrAtLeast(d, i);
    }
  }

  /** A free region that begins below the end of the image is not the last of the chain. */
  lemma FreeNotLast(c: Chain, i: nat, a: int)
    requires i < |c| && c[i].free && Contiguous(c, 0) && c[i].start <= a < MaxAddr(c)
    ensures i < |c| - 1
  {
    hide Contiguous;
    SplitAt(c, i, 0);
    var m := MaxAddrIs(c);
    if i > m {
      InOrder(c, m, i, 0);
    }
  }

  /** Before linking every byte of the image is written: code in allocated regions, zero
      in the gaps. */
  lemma BaseByte(sects: seq<Section>, c: Chain, where: Where, i: nat, a: int)
    requires Sound(sects, c, where) && c != [] && i < |c| && c[i].start <= a < c[i].End() && 0 <= a < MaxAddr(c)
    ensures !c[i].free ==> c[i].owner < |sects| && c[i].size == |sects[c[i].owner].code|
    ensures Base(sects, c)[a] == Some(if c[i].free then 0 else sects[c[i].owner].code[a - c[i].start])
  {
    hide Contiguous, EndOf, Copied, Zeroed, MaxAddr;
    OwnersFit(sects, c, where);
    var out := Fresh(MaxAddr(c));
    CopiedByte(sects, c, out, |c|, i, a);
    ZeroedByte(c, Copied(sects, c, out, |c|), |c| - 1, i, a);
    if c[i].free {
      FreeNotLast(c, i, a);
    }
  }

  lemma OwnersFit(sects: seq<Section>, c: Chain, where: Where)
    requires Sound(sects, c, where)
    ensures forall j :: 0 <= j < |c| && !c[j].free ==>
              c[j].owner < |sects| && c[j].size == |CodeOf(sects, c[j])| && CodeOf(sects, c[j]) == sects[c[j].owner].code
    ensures Contiguous(c, 0)
  {
    hide Contiguous, EndOf, Settled;
    forall j | 0 <= j < |c| && !c[j].free
      ensures c[j].owner < |sects| && c[j].size == |CodeOf(sects, c[j])| && CodeOf(sects, c[j]) == sects[c[j].owner].code
    {
      assert c[j] in c;
    }
  }

  /** Every address below the end of a chain lies in some region. */
  lemma {:induction false} RegionOf(c: Chain, lo: int, a: int) returns (i: nat)
    requires Contiguous(c, lo) && lo <= a < EndOf(c, lo)
    ensures i < |c| && c[i].start <= a < c[i].End()
  {
    if a < lo + c[0].size {
      i := 0;
    } else {
      i := RegionOf(c[1..], lo + c[0].size, a);
      i := i + 1;
    }
  }

  // The bytes after linking -------------------------------------------------------------

  /** Link n' of section k' comes before link n of section k. */
  predicate Before(k': nat, n': nat, k: nat, n: nat) {
    k' < k || (k' == k && n' < n)
  }

  /** Every section with links has a region, and link points stay apart from each other. */
  ghost predicate LinksApart(sects: seq<Section>, where: Where) {
    && |where| == |sects|
    && (forall k :: 0 <= k < |sects| && sects[k].links != [] ==> where[k].Some?)
    && forall k: nat, n: nat, k': nat, n': nat ::
         k < |sects| && n < |sects[k].links| && k' < |sects| && n' < |sects[k'].links| && (k != k' || n != n') ==>
         LinkAt(sects, where, k, n) + 2 <= LinkAt(sects, where, k', n') ||
         LinkAt(sects, where, k', n') + 2 <= LinkAt(sects, where, k, n)
  }

  /** The word at a link point is the address its name resolves to. */
  ghost predicate Holds(sects: seq<Section>, where: Where, gs: seq<Global>, out: Image, k: nat, n: nat)
    requires |where| == |sects| && k < |sects| && where[k].Some? && n < |sects[k].links|
  {
    var at := LinkAt(sects, where, k, n);
    var addr := Resolve(sects, where, gs, k, sects[k].links[n].name);
    && addr.Some? && 0 <= at && at + 2 <= |out|
    && out[at] == Some(Lo(Wrap(addr.value))) && out[at + 1] == Some(Hi(Wrap(addr.value)))
  }

  /** No link before link n of section k covers the address. */
  ghost predicate Untouched(sects: seq<Section>, where: Where, k: nat, n: nat, a: int)
    requires LinksApart(sects, where)
  {
    forall k': nat, n': nat :: k' < |sects| && n' < |sects[k'].links| && Before(k', n', k, n) ==>
      !(LinkAt(sects, where, k', n') <= a < LinkAt(sects, where, k', n') + 2)
  }

  /** The links before link n of section k are done, and nothing else has changed. */
  ghost predicate DoneTo(sects: seq<Section>, where: Where, gs: seq<Global>, base: Image, out: Image, k: nat, n: nat)
    requires LinksApart(sects, where)
  {
    && |out| == |base|
    && (forall k': nat, n': nat :: k' < |sects| && n' < |sects[k'].links| && Before(k', n', k, n) ==>
          Holds(sects, where, gs, out, k', n'))
    && forall a :: 0 <= a < |out| && Untouched(sects, where, k, n, a) ==> out[a] == base[a]
  }

  lemma LinkOneDone(sects: seq<Section>, where: Where, gs: seq<Global>, base: Image, out: Image, k: nat, n: nat)
    requires LinksApart(sects, where) && k < |sects| && n < |sects[k].links|
    requires DoneTo(sects, where, gs, base, out, k, n) && LinkOne(sects, where, gs, out, k, n).Good?
    ensures DoneTo(sects, where, gs, base, LinkOne(sects, where, gs, out, k, n).v, k, n + 1)
  {
    hide Resolve;
    var m := LinkOne(sects, where, gs, out, k, n).v;
    var at := LinkAt(sects, where, k, n);
    forall k': nat, n': nat | k' < |sects| && n' < |sects[k'].links| && Before(k', n', k, n + 1)
      ensures Holds(sects, where, gs, m, k', n')
    {
      if Before(k', n', k, n) {
        assert Holds(sects, where, gs, out, k', n');
        var at' := LinkAt(sects, where, k', n');
        assert at + 2 <= at' || at' + 2 <= at;
      }
    }
    assert Before(k, n, k, n + 1);
    forall a | 0 <= a < |m| && Untouched(sects, where, k, n + 1, a) ensures m[a] == base[a] {
      assert !(at <= a < at + 2);
      assert Untouched(sects, where, k, n, a) by {
        forall k': nat, n': nat | k' < |sects| && n' < |sects[k'].links| && Before(k', n', k, n)
          ensures !(LinkAt(sects, where, k', n') <= a < LinkAt(sects, where, k', n') + 2)
        {
          assert Before(k', n', k, n + 1);
        }
      }
    }
  }

  lemma {:induction false} LinkSectionDone(sects: seq<Section>, where: Where, gs: seq<Global>, base: Image, out: Image, k: nat, n: nat)
    requires LinksApart(sects, where) && k < |sects| && n <= |sects[k].links|
    requires DoneTo(sects, where, gs, base, out, k, 0) && LinkSection(sects, where, gs, out, k, n).Good?
    ensures DoneTo(sects, where, gs, base, LinkSection(sects, where, gs, out, k, n).v, k, n)
  {
    hide DoneTo, LinkOne, LinksApart;
    LengthsAgree(sects, where);
    if n > 0 {
      LinkSectionDone(sects, where, gs, base, out, k, n - 1);
      LinkOneDone(sects, where, gs, base, LinkSection(sects, where, gs, out, k, n - 1).v, k, n - 1);
    }
  }

  lemma LengthsAgree(sects: seq<Section>, where: Where)
    requires LinksApart(sects, where)
    ensures |where| == |sects|
  {
  }

  lemma NextSection(sects: seq<Section>, where: Where, gs: seq<Global>, base: Image, out: Image, k: nat)
    requires LinksApart(sects, where) && k < |sects| && DoneTo(sects, where, gs, base, out, k, |sects[k].links|)
    ensures DoneTo(sects, where, gs, base, out, k + 1, 0)
  {
    hide Holds;
    assert forall k': nat, n': nat :: k' < |sects| && n' < |sects[k'].links| ==>
             (Before(k', n', k + 1, 0) <==> Before(k', n', k, |sects[k].links|));
    forall a | 0 <= a < |out| && Untouched(sects, where, k + 1, 0, a) ensures out[a] == base[a] {
      assert Untouched(sects, where, k, |sects[k].links|, a);
    }
  }

  lemma {:induction false} LinkFirstDone(sects: seq<Section>, where: Where, gs: seq<Global>, base: Image, k: nat)
    requires LinksApart(sects, where) && k <= |sects| && LinkFirst(sects, where, gs, base, k).Good?
    ensures DoneTo(sects, where, gs, base, LinkFirst(sects, where, gs, base, k).v, k, 0)
  {
    hide DoneTo, LinkSection, LinksApart;
    LengthsAgree(sects, where);
    if k == 0 {
      NothingDone(sects, where, gs, base);
    } else {
      LinkFirstDone(sects, where, gs, base, k - 1);
      var out := LinkFirst(sects, where, gs, base, k - 1).v;
      LinkSectionDone(sects, where, gs, base, out, k - 1, |sects[k - 1].links|);
      NextSection(sects, where, gs, base, LinkSection(sects, where, gs, out, k - 1, |sects[k - 1].links|).v, k - 1);
    }
  }

  lemma NothingDone(sects: seq<Section>, where: Where, gs: seq<Global>, base: Image)
    requires LinksApart(sects, where)
    ensures DoneTo(sects, where, gs, base, base, 0, 0)
  {
  }

  // Sections and their links ------------------------------------------------------------

  /** Link points lie inside their section's code and do not overlap. */
  ghost predicate GoodLinks(s: Section) {
    && (forall n :: 0 <= n < |s.links| ==> s.links[n].addr + 2 <= |s.code|)
    && forall n, n' :: 0 <= n < n' < |s.links| ==>
         s.links[n].addr + 2 <= s.links[n'].addr || s.links[n'].addr + 2 <= s.links[n].addr
  }

  lemma GoodLinksApart(sects: seq<Section>, c: Chain, where: Where)
    requires Sound(sects, c, where) && forall k :: 0 <= k < |sects| ==> GoodLinks(sects[k])
    requires forall k :: 0 <= k < |sects| && SizeOf(sects, k) > 0 ==> where[k].Some?
    ensures LinksApart(sects, where)
  {
    hide Sound;
    SoundLength(sects, c, where);
    forall k: nat | k < |sects| && sects[k].links != [] ensures where[k].Some? && SizeOf(sects, k) > 0 {
      assert GoodLinks(sects[k]) && sects[k].links[0].addr + 2 <= SizeOf(sects, k);
    }
    forall k: nat, n: nat, k': nat, n': nat |
      k < |sects| && n < |sects[k].links| && k' < |sects| && n' < |sects[k'].links| && (k != k' || n != n')
      ensures LinkAt(sects, where, k, n) + 2 <= LinkAt(sects, where, k', n') ||
              LinkAt(sects, where, k', n') + 2 <= LinkAt(sects, where, k, n)
    {
      assert GoodLinks(sects[k]) && GoodLinks(sects[k']);
      if k != k' {
        PlacedApart(sects, c, where, k, k');
      }
    }
  }

  // What the image holds ----------------------------------------------------------------

  /** A placement that linking can rely on, and the image that came out of it. */
  ghost predicate LinkedTo(sects: seq<Section>, c: Chain, where: Where, gs: seq<Global>, out: Image) {
    && c != [] && Sound(sects, c, where) && |where| == |sects|
    && (forall k :: 0 <= k < |sects| ==> GoodLinks(sects[k]))
    && (forall k :: 0 <= k < |sects| && SizeOf(sects, k) > 0 ==> where[k].Some?)
    && Globals(sects, where, |sects|) == Good(gs) && LinkImage(sects, c, where) == Good(out)
  }

  lemma ImageDone(sects: seq<Section>, c: Chain, where: Where, gs: seq<Global>, out: Image)
    requires LinkedTo(sects, c, where, gs, out)
    ensures LinksApart(sects, where) && DoneTo(sects, where, gs, Base(sects, c), out, |sects|, 0)
    ensures |out| == |Base(sects, c)|
  {
    hide Sound, DoneTo, LinksApart, Base, LinkFirst, Globals;
    GoodLinksApart(sects, c, where);
    LinkFirstDone(sects, where, gs, Base(sects, c), |sects|);
  }

  /** A link point holds the little-endian address of the section's own symbol of that
      name, or else of the first export of that name. */
  lemma LinkPointHolds(sects: seq<Section>, c: Chain, where: Where, gs: seq<Global>, out: Image, k: nat, n: nat)
    requires LinkedTo(sects, c, where, gs, out) && k < |sects| && n < |sects[k].links|
    ensures where[k].Some? && Holds(sects, where, gs, out, k, n)
  {
    hide Sound, Base, Globals, LinkImage, Holds;
    ImageDone(sects, c, where, gs, out);
    assert Before(k, n, |sects|, 0);
  }

  /** Some link point of section k covers the address. */
  ghost predicate Covered(sects: seq<Section>, where: Where, k: nat, a: int)
    requires |where| == |sects| && k < |sects| && where[k].Some?
  {
    exists n: nat :: n < |sects[k].links| && LinkAt(sects, where, k, n) <= a < LinkAt(sects, where, k, n) + 2
  }

  /** A link point covers only addresses of its own section's region. */
  lemma CoversOwn(sects: seq<Section>, c: Chain, where: Where, i: nat, a: int, k: nat, n: nat)
    requires Sound(sects, c, where) && i < |c| && c[i].start <= a < c[i].End()
    requires k < |sects| && n < |sects[k].links| && GoodLinks(sects[k]) && where[k].Some?
    requires LinkAt(sects, where, k, n) <= a < LinkAt(sects, where, k, n) + 2
    ensures !c[i].free && c[i].owner == k
  {
    hide Contiguous, EndOf, Settled;
    assert sects[k].links[n].addr + 2 <= SizeOf(sects, k);
    assert SpanOf(sects, where, k) in c;
    var j :| 0 <= j < |c| && c[j] == SpanOf(sects, where, k);
    OneRegion(c, j, i, a);
  }

  /**
   Every byte of the linked image below the end of the last section is determined: zero in
   a gap, the section's own code byte in its region, unless a link point of that very
   section covers it.
   */
  lemma ImageByte(sects: seq<Section>, c: Chain, where: Where, gs: seq<Global>, out: Image, a: int) returns (i: nat)
    requires LinkedTo(sects, c, where, gs, out) && 0 <= a < MaxAddr(c)
    ensures |out| == MaxAddr(c) && i < |c| && c[i].start <= a < c[i].End()
    ensures c[i].free ==> out[a] == Some(0)
    ensures !c[i].free ==> c[i].owner < |sects| && where[c[i].owner] == Some(c[i].start) &&
                           c[i].size == |sects[c[i].owner].code|
    ensures !c[i].free && !Covered(sects, where, c[i].owner, a) ==>
            out[a] == Some(sects[c[i].owner].code[a - c[i].start])
  {
    hide Base, Globals, LinkImage, Holds, MaxAddr, Contiguous, EndOf, Settled, LinksApart;
    ImageDone(sects, c, where, gs, out);
    WithinChain(c, a);
    i := RegionOf(c, 0, a);
    BaseByte(sects, c, where, i, a);
    if !c[i].free {
      SpanOwner(sects, c, where, i);
    }
    if c[i].free || !Covered(sects, where, c[i].owner, a) {
      assert Untouched(sects, where, |sects|, 0, a) by {
        LinkedHavePlace(sects, where);
        forall k': nat, n': nat | k' < |sects| && n' < |sects[k'].links| && Before(k', n', |sects|, 0)
          ensures !(LinkAt(sects, where, k', n') <= a < LinkAt(sects, where, k', n') + 2)
        {
          if LinkAt(sects, where, k', n') <= a < LinkAt(sects, where, k', n') + 2 {
            CoversOwn(sects, c, where, i, a, k', n');
          }
        }
      }
    }
  }

  lemma LinkedHavePlace(sects: seq<Section>, where: Where)
    requires LinksApart(sects, where)
    ensures |where| == |sects| && forall k :: 0 <= k < |sects| && sects[k].links != [] ==> where[k].Some?
  {
  }

  lemma SpanOwner(sects: seq<Section>, c: Chain, where: Where, i: nat)
    requires Sound(sects, c, where) && i < |c| && !c[i].free
    ensures c[i].owner < |sects| && where[c[i].owner] == Some(c[i].start)
  {
    assert c[i] in c;
  }

  lemma WithinChain(c: Chain, a: int)
    requires Tiles(c, 0, MAX_ADDR) && 0 <= a < MaxAddr(c)
    ensures a < EndOf(c, 0)
  {
    var m := MaxAddrIs(c);
    SplitAt(c, m, 0);
    EndGrows(c[m + 1..], c[m].End());
  }
}
