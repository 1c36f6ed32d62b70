/**
 Where the linker puts sections: statics at their origins, then the others, largest
 first, each in the first free region that is big enough.
 */
module Placement {
  import opened Words
  import opened Regions
  import Iof

  /** A name and an offset in its section. */
  type Symbol = Iof.Entry

  /** A section as the linker reads it from an object. */
  datatype Section = Section(fixed: bool, origin: u16, code: seq<u8>, symbols: seq<Symbol>,
                             links: seq<Symbol>, exports: seq<Symbol>)

  const MAX_ADDR: int := 0xffff

  const EMPTY: Chain := [Span(true, 0, MAX_ADDR, 0)]

  /** Where each section was put, if it was. */
  type Where = seq<Option<int>>

  /** `Dangling`: the only way to the chain was freed, and what follows is undefined. */
  datatype Outcome = Placed(chain: Chain, where: Where) | Died | Dangling

  // Searching --------------------------------------------------------------------------

  function FindAddr(c: Chain, addr: int): (r: nat)
    ensures r <= |c| && (r < |c| ==> c[r].start <= addr < c[r].End())
    ensures forall j :: 0 <= j < r ==> !(c[j].start <= addr < c[j].End())
  {
    if c == [] || c[0].start <= addr < c[0].End() then 0 else 1 + FindAddr(c[1..], addr)
  }

  function FirstFit(c: Chain, size: int): (r: nat)
    ensures r <= |c| && (r < |c| ==> c[r].free && c[r].size >= size)
    ensures forall j :: 0 <= j < r ==> !(c[j].free && c[j].size >= size)
  {
    if c == [] || (c[0].free && c[0].size >= size) then 0 else 1 + FirstFit(c[1..], size)
  }

  function SizeOf(sects: seq<Section>, k: nat): int
    requires k < |sects|
  {
    |sects[k].code|
  }

  predicate Waiting(sects: seq<Section>, where: Where, k: nat)
    requires |where| == |sects|
  {
    k < |sects| && where[k].None? && SizeOf(sects, k) > 0
  }

  /** The first of the largest sections not placed yet among the first n; empty sections
      are never chosen. */
  function Largest(sects: seq<Section>, where: Where, n: nat): (r: Option<nat>)
    requires |where| == |sects| && n <= |sects|
    ensures r.None? ==> forall k: nat :: k < n ==> !Waiting(sects, where, k)
    ensures r.Some? ==>
              && r.value < n && Waiting(sects, where, r.value)
              && forall k: nat :: k < n && Waiting(sects, where, k) ==> SizeOf(sects, k) <= SizeOf(sects, r.value)
  {
    if n == 0 then None
    else
      var best := Largest(sects, where, n - 1);
      if Waiting(sects, where, n - 1) && (best.None? || SizeOf(sects, best.value) < SizeOf(sects, n - 1))
      then Some(n - 1) else best
  }

  // Placing ----------------------------------------------------------------------------

  /** Inserts section k into region i; replacing the very first region loses the chain. */
  function Put(c: Chain, where: Where, i: nat, k: nat, start: int, size: int): Outcome
    requires i < |c| && k < |where|
  {
    var r := Span(false, start, size, k);
    match Insert(c, i, r)
    case None => Died
    case Some(d) =>
      if i == 0 && SpaceBefore(c[0], r) == 0 && SpaceAfter(c[0], r) == 0 then Dangling
      else Placed(d, where[k := Some(start)])
  }

  function PutStatic(sects: seq<Section>, k: nat, c: Chain, where: Where): Outcome
    requires |where| == |sects| && k < |sects|
  {
    var i := FindAddr(c, sects[k].origin);
    if i == |c| || !c[i].free then Died
    else Put(c, where, i, k, sects[k].origin, SizeOf(sects, k))
  }

  function PlaceStatics(sects: seq<Section>, k: nat, c: Chain, where: Where): (o: Outcome)
    requires |where| == |sects| && k <= |sects|
    ensures o.Placed? ==> |o.where| == |sects|
    decreases |sects| - k
  {
    if k == |sects| then Placed(c, where)
    else if !sects[k].fixed then PlaceStatics(sects, k + 1, c, where)
    else
      match PutStatic(sects, k, c, where)
      case Placed(d, w) => PlaceStatics(sects, k + 1, d, w)
      case o => o
  }

  function PutMovable(sects: seq<Section>, k: nat, c: Chain, where: Where): Outcome
    requires |where| == |sects| && k < |sects|
  {
    var i := FirstFit(c, SizeOf(sects, k));
    if i == |c| then Died else Put(c, where, i, k, c[i].start, SizeOf(sects, k))
  }

  /** How many sections are still to be placed: what the placement loop counts down. */
  function Unplaced(sects: seq<Section>, where: Where, n: nat): nat
    requires |where| == |sects| && n <= |sects|
  {
    if n == 0 then 0 else (if Waiting(sects, where, n - 1) then 1 else 0) + Unplaced(sects, where, n - 1)
  }

  lemma {:induction false} UnplacedDrops(sects: seq<Section>, where: Where, k: nat, start: int, n: nat)
    requires |where| == |sects| && n <= |sects| && Waiting(sects, where, k)
    ensures Unplaced(sects, where[k := Some(start)], n) == Unplaced(sects, where, n) - if k < n then 1 else 0
  {
    if n > 0 {
      UnplacedDrops(sects, where, k, start, n - 1);
    }
  }

  function PlaceMovables(sects: seq<Section>, c: Chain, where: Where): (o: Outcome)
    requires |where| == |sects|
    ensures o.Placed? ==> |o.where| == |sects|
    decreases Unplaced(sects, where, |sects|)
  {
    match Largest(sects, where, |sects|)
    case None => Placed(c, where)
    case Some(k) =>
      match PutMovable(sects, k, c, where)
      case Placed(d, w) =>
        UnplacedDrops(sects, where, k, w[k].value, |sects|);
        PlaceMovables(sects, d, w)
      case o => o
  }

  function NoWhere(n: nat): (r: Where)
    ensures |r| == n && forall k :: 0 <= k < n ==> r[k] == None
  {
    seq(n, _ => None)
  }

  function PlaceAll(sects: seq<Section>): Outcome {
    match PlaceStatics(sects, 0, EMPTY, NoWhere(|sects|))
    case Placed(c, where) => PlaceMovables(sects, c, where)
    case o => o
  }

  // What every step keeps --------------------------------------------------------------

  function SpanOf(sects: seq<Section>, where: Where, k: nat): Span
    requires |where| == |sects| && k < |sects| && where[k].Some?
  {
    Span(false, where[k].value, SizeOf(sects, k), k)
  }

  /** The chain tiles the address space; its allocated regions are exactly the placed
      sections that have code, each of its own size at its own place. */
  ghost predicate Sound(sects: seq<Section>, c: Chain, where: Where) {
    && |where| == |sects| && Tiles(c, 0, MAX_ADDR) && Settled(c)
    && (forall k: nat :: k < |sects| && where[k].Some? && SizeOf(sects, k) > 0 ==> SpanOf(sects, where, k) in c)
    && (forall s :: s in c && !s.free ==> s.owner < |sects| && where[s.owner].Some? && s == SpanOf(sects, where, s.owner))
  }

  /** Section k goes into region i and the chain loses nothing. */
  predicate Whole(c: Chain, i: nat, start: int, size: int, k: nat)
    requires i < |c|
  {
    KeepsRest(c, i, Span(false, start, size, k), MAX_ADDR)
  }

  lemma PutSound(sects: seq<Section>, c: Chain, where: Where, i: nat, k: nat, start: int)
    requires Sound(sects, c, where) && i < |c| && k < |sects| && where[k].None?
    requires Put(c, where, i, k, start, SizeOf(sects, k)).Placed? && Whole(c, i, start, SizeOf(sects, k), k)
    ensures var o := Put(c, where, i, k, start, SizeOf(sects, k)); Sound(sects, o.chain, o.where)
  {
    hide Tiles, Settled, Insert, KeepsRest;
    var r := Span(false, start, SizeOf(sects, k), k);
    var o := Put(c, where, i, k, start, SizeOf(sects, k));
    InsertTiles(c, i, r, 0, MAX_ADDR);
    InsertSettled(c, i, r);
    InsertHas(c, i, r);
    forall j: nat | j < |sects| && o.where[j].Some? && SizeOf(sects, j) > 0 ensures SpanOf(sects, o.where, j) in o.chain {
      if j != k {
        InsertKeeps(c, i, r, SpanOf(sects, where, j), 0, MAX_ADDR);
      }
    }
    forall s | s in o.chain && !s.free
      ensures s.owner < |sects| && o.where[s.owner].Some? && s == SpanOf(sects, o.where, s.owner)
    {
      InsertOnly(c, i, r, s);
    }
  }

  lemma StartSound(sects: seq<Section>)
    ensures Sound(sects, EMPTY, NoWhere(|sects|))
  {
    EndOfOne(EMPTY[0], 0);
  }

  // Statics in ascending order -----------------------------------------------------------

  /** Every static section starts at or behind the end of the ones before it. */
  predicate Ascending(sects: seq<Section>, k: nat, bound: int)
    requires k <= |sects|
    decreases |sects| - k
  {
    k == |sects| ||
    if sects[k].fixed then
      bound <= sects[k].origin && Ascending(sects, k + 1, sects[k].origin + SizeOf(sects, k))
    else Ascending(sects, k + 1, bound)
  }

  /** The free space behind `bound` is one region that reaches to the end. */
  ghost predicate OneTail(c: Chain, bound: int) {
    forall s :: s in c && s.free && s.End() > bound ==> s.End() == MAX_ADDR
  }

  lemma StaticStep(sects: seq<Section>, k: nat, c: Chain, where: Where, bound: int)
    requires Sound(sects, c, where) && k < |sects| && sects[k].fixed && where[k].None?
    requires OneTail(c, bound) && bound <= sects[k].origin && PutStatic(sects, k, c, where).Placed?
    ensures var o := PutStatic(sects, k, c, where);
            && Sound(sects, o.chain, o.where) && OneTail(o.chain, sects[k].origin + SizeOf(sects, k))
            && o.where == where[k := Some(sects[k].origin as int)]
  {
    hide Sound, Insert;
    SoundLength(sects, c, where);
    var i := FindAddr(c, sects[k].origin);
    var r := Span(false, sects[k].origin, SizeOf(sects, k), k);
    assert c[i] in c && c[i].End() == MAX_ADDR;
    PutSound(sects, c, where, i, k, sects[k].origin);
    var o := PutStatic(sects, k, c, where);
    forall s | s in o.chain && s.free && s.End() > r.End() ensures s.End() == MAX_ADDR {
      InsertOnly(c, i, r, s);
    }
  }

  /** No static section is placed before its turn. */
  ghost predicate Pending(sects: seq<Section>, k: nat, where: Where)
    requires |where| == |sects|
  {
    forall j :: 0 <= j < |sects| && (j >= k || !sects[j].fixed) ==> where[j].None?
  }

  ghost predicate StaticsAt(sects: seq<Section>, k: nat, where: Where)
    requires |where| == |sects| && k <= |sects|
  {
    forall j :: 0 <= j < k && sects[j].fixed ==> where[j] == Some(sects[j].origin as int)
  }

  /** Statics in ascending order never lose a part of the chain: if none of them dies, all
      of them stand at their origins. */
  lemma {:induction false} StaticsPlaced(sects: seq<Section>, k: nat, c: Chain, where: Where, bound: int)
    requires k <= |sects| && Sound(sects, c, where) && OneTail(c, bound) && Ascending(sects, k, bound)
    requires Pending(sects, k, where) && StaticsAt(sects, k, where)
    requires PlaceStatics(sects, k, c, where).Placed?
    ensures var o := PlaceStatics(sects, k, c, where);
            && Sound(sects, o.chain, o.where) && StaticsAt(sects, |sects|, o.where)
            && forall j :: 0 <= j < |sects| && !sects[j].fixed ==> o.where[j].None?
    decreases |sects| - k
  {
    hide Sound, OneTail, PutStatic;
    SoundLength(sects, c, where);
    if k < |sects| {
      if sects[k].fixed {
        StaticStep(sects, k, c, where, bound);
        var o := PutStatic(sects, k, c, where);
        StaticsPlaced(sects, k + 1, o.chain, o.where, sects[k].origin + SizeOf(sects, k));
      } else {
        StaticsPlaced(sects, k + 1, c, where, bound);
      }
    }
  }

  lemma SoundLength(sects: seq<Section>, c: Chain, where: Where)
    requires Sound(sects, c, where)
    ensures |where| == |sects|
  {
  }

  // The placement loop -------------------------------------------------------------------

  /** No free region but the last is ever filled exactly. */
  predicate NoExactFill(sects: seq<Section>, c: Chain, where: Where)
    requires |where| == |sects|
    decreases Unplaced(sects, where, |sects|)
  {
    match Largest(sects, where, |sects|)
    case None => true
    case Some(k) =>
      var i := FirstFit(c, SizeOf(sects, k));
      i < |c| ==>
        && (c[i].size > SizeOf(sects, k) || c[i].End() == MAX_ADDR)
        && match PutMovable(sects, k, c, where)
           case Placed(d, w) =>
             UnplacedDrops(sects, where, k, w[k].value, |sects|);
             NoExactFill(sects, d, w)
           case _ => true
  }

  lemma MovableStep(sects: seq<Section>, k: nat, c: Chain, where: Where)
    requires Sound(sects, c, where) && Waiting(sects, where, k) && PutMovable(sects, k, c, where).Placed?
    requires var i := FirstFit(c, SizeOf(sects, k)); c[i].size > SizeOf(sects, k) || c[i].End() == MAX_ADDR
    ensures var o := PutMovable(sects, k, c, where);
            Sound(sects, o.chain, o.where) && o.where[k].Some? && o.where == where[k := o.where[k]]
  {
    hide Sound, Insert;
    SoundLength(sects, c, where);
    var i := FirstFit(c, SizeOf(sects, k));
    PutSound(sects, c, where, i, k, c[i].start);
  }

  lemma MovableRoom(sects: seq<Section>, k: nat, c: Chain, where: Where)
    requires |where| == |sects| && k < |sects| && PutMovable(sects, k, c, where).Placed?
    ensures FirstFit(c, SizeOf(sects, k)) < |c|
  {
    hide Insert;
  }

  /**
   The loop ends with every section that has code in a region of its own, and what was
   placed before still where it was.
   */
  lemma {:induction false} MovablesPlaced(sects: seq<Section>, c: Chain, where: Where)
    requires Sound(sects, c, where) && NoExactFill(sects, c, where) && PlaceMovables(sects, c, where).Placed?
    ensures var o := PlaceMovables(sects, c, where);
            && Sound(sects, o.chain, o.where)
            && (forall k :: 0 <= k < |sects| && SizeOf(sects, k) > 0 ==> o.where[k].Some?)
            && (forall k :: 0 <= k < |sects| && where[k].Some? ==> o.where[k] == where[k])
    decreases Unplaced(sects, where, |sects|)
  {
    hide Sound, PutMovable, Unplaced;
    SoundLength(sects, c, where);
    var l := Largest(sects, where, |sects|);
    if l.Some? {
      MovableRoom(sects, l.value, c, where);
      MovableStep(sects, l.value, c, where);
      var o := PutMovable(sects, l.value, c, where);
      UnplacedDrops(sects, where, l.value, o.where[l.value].value, |sects|);
      MovablesPlaced(sects, o.chain, o.where);
    } else {
      forall k | 0 <= k < |sects| && SizeOf(sects, k) > 0 ensures where[k].Some? {
        assert !Waiting(sects, where, k);
      }
    }
  }

  /** The condition of the placement guarantee, on the sections alone. */
  predicate Placeable(sects: seq<Section>) {
    && Ascending(sects, 0, 0)
    && match PlaceStatics(sects, 0, EMPTY, NoWhere(|sects|))
       case Placed(c, where) => NoExactFill(sects, c, where)
       case _ => true
  }

  /**
   Placement either stops with an error or ends with the whole address space tiled: every
   section that has code owns one region of its own size, statics at their origins.
   */
  lemma PlacementSound(sects: seq<Section>)
    requires Placeable(sects) && PlaceAll(sects).Placed?
    ensures var o := PlaceAll(sects);
            && Sound(sects, o.chain, o.where)
            && (forall k :: 0 <= k < |sects| && SizeOf(sects, k) > 0 ==> o.where[k].Some?)
            && (forall k :: 0 <= k < |sects| && sects[k].fixed ==> o.where[k] == Some(sects[k].origin as int))
  {
    hide Sound, PlaceStatics, PlaceMovables, NoExactFill, Ascending, OneTail;
    StartSound(sects);
    StartTail();
    StaticsPlaced(sects, 0, EMPTY, NoWhere(|sects|), 0);
    var s := PlaceStatics(sects, 0, EMPTY, NoWhere(|sects|));
    MovablesPlaced(sects, s.chain, s.where);
  }

  lemma StartTail()
    ensures OneTail(EMPTY, 0)
  {
  }

  /** Two sections with code never share an address. */
  lemma PlacedApart(sects: seq<Section>, c: Chain, where: Where, j: nat, k: nat)
    requires Sound(sects, c, where) && j < |sects| && k < |sects| && j != k
    requires where[j].Some? && where[k].Some? && SizeOf(sects, j) > 0 && SizeOf(sects, k) > 0
    ensures where[j].value + SizeOf(sects, j) <= where[k].value || where[k].value + SizeOf(sects, k) <= where[j].value
  {
    hide Settled, Contiguous, EndOf;
    var a :| 0 <= a < |c| && c[a] == SpanOf(sects, where, j);
    var b :| 0 <= b < |c| && c[b] == SpanOf(sects, where, k);
    if a < b { InOrder(c, a, b, 0); } else { InOrder(c, b, a, 0); }
  }

  // Order --------------------------------------------------------------------------------

  /** The sections the loop places, in the order it places them. */
  function Order(sects: seq<Section>, c: Chain, where: Where): seq<nat>
    requires |where| == |sects|
    decreases Unplaced(sects, where, |sects|)
  {
    match Largest(sects, where, |sects|)
    case None => []
    case Some(k) =>
      match PutMovable(sects, k, c, where)
      case Placed(d, w) =>
        UnplacedDrops(sects, where, k, w[k].value, |sects|);
        [k] + Order(sects, d, w)
      case _ => []
  }

  lemma {:induction false} OrderWaiting(sects: seq<Section>, c: Chain, where: Where, i: nat)
    requires |where| == |sects| && i < |Order(sects, c, where)|
    ensures Waiting(sects, where, Order(sects, c, where)[i])
    decreases Unplaced(sects, where, |sects|)
  {
    hide Unplaced;
    var k := Largest(sects, where, |sects|).value;
    if i > 0 {
      var o := PutMovable(sects, k, c, where);
      UnplacedDrops(sects, where, k, o.where[k].value, |sects|);
      OrderWaiting(sects, o.chain, o.where, i - 1);
    }
  }

  /** Sections are placed in non-increasing order of size. */
  lemma {:induction false} OrderDescends(sects: seq<Section>, c: Chain, where: Where, i: nat, j: nat)
    requires |where| == |sects| && i < j < |Order(sects, c, where)|
    ensures Order(sects, c, where)[i] < |sects| && Order(sects, c, where)[j] < |sects|
    ensures SizeOf(sects, Order(sects, c, where)[j]) <= SizeOf(sects, Order(sects, c, where)[i])
    decreases Unplaced(sects, where, |sects|)
  {
    hide Unplaced;
    OrderWaiting(sects, c, where, i);
    OrderWaiting(sects, c, where, j);
    if i > 0 {
      var k := Largest(sects, where, |sects|).value;
      var o := PutMovable(sects, k, c, where);
      UnplacedDrops(sects, where, k, o.where[k].value, |sects|);
      OrderDescends(sects, o.chain, o.where, i - 1, j - 1);
    }
  }
}
