/**
 The linker as an object: it searches and rewires the region chain, remembers where each
 section went, all in place.
 */
module Linker {
  import opened Words
  import opened Regions
  import opened RegionChain
  import opened Placement

  /** How a step of the linker ended. */
  datatype Status = Fine | Dead | Lost

  lemma FindAddrFrom(c: Chain, j: nat, addr: int)
    requires j < |c|
    ensures FindAddr(c[j..], addr) ==
            if c[j].start <= addr < c[j].End() then 0 else 1 + FindAddr(c[j + 1..], addr)
  {
    assert c[j..][1..] == c[j + 1..];
  }

  lemma FirstFitFrom(c: Chain, j: nat, size: int)
    requires j < |c|
    ensures FirstFit(c[j..], size) == if c[j].free && c[j].size >= size then 0 else 1 + FirstFit(c[j + 1..], size)
  {
    assert c[j..][1..] == c[j + 1..];
  }

  /** Searching no regions at all ends where it starts. */
  lemma SearchEnds(c: Chain)
    ensures c[0..] == c && c[|c|..] == []
    ensures forall addr :: FindAddr([], addr) == 0
    ensures forall size :: FirstFit([], size) == 0
  {
  }

  class Placer {
    const sects: seq<Section>
    /** Any node from which `prev` leads to the first region. */
    var chain: Node
    ghost var nodes: seq<Node>
    ghost var repr: set<Node>
    /** The region of each section. */
    var regions: seq<Node?>

    ghost predicate Valid()
      reads this, nodes, regions
    {
      && Linked(nodes) && |nodes| > 0 && |regions| == |sects| && (forall j :: 0 <= j < |nodes| ==> nodes[j] in repr)
      && (chain == nodes[0] || (|nodes| > 1 && chain == nodes[1] && nodes[1].prev == nodes[0]))
      && forall k :: 0 <= k < |regions| && regions[k] != null ==> !regions[k].free
    }

    /** What a walk along the chain sees. */
    ghost function Spans(): Chain
      reads this, nodes
    {
      View(nodes)
    }

    ghost function Spots(): (r: Where)
      reads this, regions
      ensures |r| == |regions|
      ensures forall k :: 0 <= k < |r| ==> r[k] == if regions[k] == null then None else Some(regions[k].start)
    {
      seq(|regions|, k requires 0 <= k < |regions| reads this, regions =>
        if regions[k] == null then None else Some(regions[k].start))
    }

    /** One free region over the whole address space, and no section placed. */
    constructor (sects: seq<Section>)
      ensures Valid() && this.sects == sects && Spans() == EMPTY && Spots() == NoWhere(|sects|)
      ensures fresh(repr) && NoneFrom(0)
    {
      this.sects := sects;
      var first := new Node();
      first.start := 0;
      first.size := MAX_ADDR;
      chain := first;
      nodes := [first];
      repr := {first};
      regions := seq(|sects|, _ => null);
      new;
      assert View(nodes) == EMPTY;
      assert Spots() == NoWhere(|sects|);
    }

    method GetFirst() returns (first: Node)
      requires Valid()
      modifies this`chain
      ensures Valid() && first == chain == nodes[0]
      ensures Spans() == old(Spans()) && Spots() == old(Spots())
    {
      while chain.prev != null
        invariant Valid()
        decreases if chain == nodes[0] then 0 else 1
      {
        chain := chain.prev;
      }
      first := chain;
    }

    method FindRegionWithAddr(addr: int) returns (found: Node?, ghost i: nat)
      requires Valid()
      modifies this`chain
      ensures Valid() && chain == nodes[0] && Spans() == old(Spans()) && Spots() == old(Spots())
      ensures i == FindAddr(Spans(), addr) && found == if i < |nodes| then nodes[i] else null
    {
      hide Linked, View, FindAddr, FirstFit;
      SearchEnds(View(nodes));
      var region: Node? := GetFirst();
      ghost var c := Spans();
      ViewAt(nodes);
      i := 0;
      while region != null
        invariant i <= |nodes| && region == if i < |nodes| then nodes[i] else null
        invariant FindAddr(c, addr) == i + FindAddr(c[i..], addr)
        modifies {}
        decreases |nodes| - i
      {
        FindAddrFrom(c, i, addr);
        var hit := addr >= region.start && addr < region.start + region.size;
        assert hit == (c[i].start <= addr < c[i].End());
        if hit {
          return region, i;
        }
        LinkedNext(nodes, i);
        region := region.next;
        i := i + 1;
      }
      found := null;
    }

    method FindFit(size: int) returns (found: Node?, ghost i: nat)
      requires Valid()
      modifies this`chain
      ensures Valid() && chain == nodes[0] && Spans() == old(Spans()) && Spots() == old(Spots())
      ensures i == FirstFit(Spans(), size) && found == if i < |nodes| then nodes[i] else null
    {
      hide Linked, View, FindAddr, FirstFit;
      SearchEnds(View(nodes));
      var region: Node? := GetFirst();
      ghost var c := Spans();
      ViewAt(nodes);
      i := 0;
      while region != null
        invariant i <= |nodes| && region == if i < |nodes| then nodes[i] else null
        invariant FirstFit(c, size) == i + FirstFit(c[i..], size)
        modifies {}
        decreases |nodes| - i
      {
        FirstFitFrom(c, i, size);
        var hit := region.free && region.size >= size;
        assert hit == (c[i].free && c[i].size >= size);
        if hit {
          return region, i;
        }
        LinkedNext(nodes, i);
        region := region.next;
        i := i + 1;
      }
      found := null;
    }

    ghost predicate Did(s: Status, o: Outcome)
      reads this, nodes, regions
    {
      match o
      case Placed(c, w) => s == Fine && Valid() && Spans() == c && Spots() == w
      case Died => s == Dead
      case Dangling => s == Lost
    }

    /** An allocated region for section k, not linked to anything yet. */
    method NewRegion(k: nat, start: int) returns (r: Node)
      requires k < |sects|
      ensures fresh(r) && r.next == null && r.prev == null && r.ToSpan() == Span(false, start, SizeOf(sects, k), k)
    {
      r := new Node();
      r.free := false;
      r.size := |sects[k].code|;
      r.start := start;
      r.owner := k;
    }

    lemma IsValid()
      requires Valid()
      ensures Linked(nodes) && |nodes| > 0 && |regions| == |sects| && forall j :: 0 <= j < |nodes| ==> nodes[j] in repr
      ensures forall j :: 0 <= j < |regions| && regions[j] != null ==> !regions[j].free
    {
    }

    lemma BecomesValid(c: seq<Node>)
      requires Linked(nodes) && |c| > 0 && HeadNear(c, nodes) && chain == c[0] && |regions| == |sects|
      requires forall j :: 0 <= j < |nodes| ==> nodes[j] in repr
      requires forall j :: 0 <= j < |regions| && regions[j] != null ==> !regions[j].free
      ensures Valid()
    {
    }

    lemma SameSpots(before: Where, k: nat, start: int)
      requires |before| == |regions| && k < |regions| && regions[k] != null && regions[k].start == start
      requires forall j :: 0 <= j < |regions| && j != k ==>
                 before[j] == if regions[j] == null then None else Some(regions[j].start)
      ensures Spots() == before[k := Some(start)]
    {
    }

    /** Rewires the chain around a node that is not part of it yet. */
    method Splice(into: Node, r: Node, ghost i: nat) returns (failed: bool)
      requires Valid() && i < |nodes| && nodes[i] == into
      requires r !in repr && r.next == null && r.prev == null && !r.free
      modifies this`nodes, this`repr, repr, r
      ensures failed == Insert(old(Spans()), i, old(r.ToSpan())).None? && r.ToSpan() == old(r.ToSpan())
      ensures !failed ==> Linked(nodes) && Spans() == Insert(old(Spans()), i, old(r.ToSpan())).value
      ensures !failed && (i > 0 || old(into.start) != r.start || old(into.size) != r.size) ==> HeadNear(old(nodes), nodes)
      ensures forall j :: 0 <= j < |nodes| ==> nodes[j] in repr
      ensures fresh(repr - old(repr) - {r})
      ensures !failed ==> forall j :: 0 <= j < |regions| && regions[j] != null && regions[j] != r ==>
                regions[j].ToSpan() == old(regions[j].ToSpan()) && !regions[j].free
    {
      hide Linked, View, Insert, Spots, HeadNear, Valid;
      IsValid();
      ViewAt(nodes);
      ghost var before := Spans();
      failed, nodes := RegionInsert(into, r, nodes, i);
      repr := repr + set n | n in nodes;
      if !failed {
        InsertFree(before, i, r.ToSpan());
      }
    }

    /** Links a new region for section k into the i-th one. */
    method LinkNode(into: Node, ghost i: nat, k: nat, start: int) returns (failed: bool)
      requires Valid() && chain == nodes[0] && i < |nodes| && nodes[i] == into
      requires k < |sects| && regions[k] == null
      modifies this, repr
      ensures failed == Insert(old(Spans()), i, Span(false, start, SizeOf(sects, k), k)).None?
      ensures !failed && (i > 0 || old(into.start) != start || old(into.size) != SizeOf(sects, k)) ==>
                Valid() && Spans() == Insert(old(Spans()), i, Span(false, start, SizeOf(sects, k), k)).value
      ensures !failed ==> Spots() == old(Spots())[k := Some(start)]
      ensures fresh(repr - old(repr))
      ensures |regions| == |old(regions)| && forall j :: 0 <= j < |regions| && j != k ==> regions[j] == old(regions[j])
    {
      hide Linked, View, Insert, Spots, HeadNear, Valid;
      IsValid();
      ghost var c, spots, keeps := nodes, Spots(), i > 0 || into.start != start || into.size != SizeOf(sects, k);
      var r := NewRegion(k, start);
      failed := Splice(into, r, i);
      if failed {
        return;
      }
      regions := regions[k := r];
      SameSpots(spots, k, start);
      if keeps {
        BecomesValid(c);
      }
    }

    /** Gives section k a region inside the i-th one. When that one is the first and is
        filled exactly, the linker is left holding freed memory. */
    method PutNode(into: Node, ghost i: nat, k: nat, start: int) returns (s: Status)
      requires Valid() && chain == nodes[0] && i < |nodes| && nodes[i] == into
      requires k < |sects| && regions[k] == null
      modifies this, repr
      ensures Did(s, Put(old(Spans()), old(Spots()), i, k, start, SizeOf(sects, k)))
      ensures fresh(repr - old(repr))
      ensures |regions| == |old(regions)| && forall j :: 0 <= j < |regions| && j != k ==> regions[j] == old(regions[j])
    {
      hide Linked, View, Insert, Put, Spots, Valid;
      IsValid();
      ViewAt(nodes);
      DistinctNodes(nodes);
      PutIs(Spans(), Spots(), i, k, start, SizeOf(sects, k));
      var replacesFirst := into == chain && into.start == start && into.size == |sects[k].code|;
      var failed := LinkNode(into, i, k, start);
      s := if failed then Dead else if replacesFirst then Lost else Fine;
    }

    method PutStaticNode(k: nat) returns (s: Status)
      requires Valid() && k < |sects| && regions[k] == null
      modifies this, repr
      ensures Did(s, PutStatic(sects, k, old(Spans()), old(Spots())))
      ensures fresh(repr - old(repr))
      ensures |regions| == |old(regions)| && forall j :: 0 <= j < |regions| && j != k ==> regions[j] == old(regions[j])
    {
      hide Put, FindAddr, Valid, View;
      IsValid();
      ViewAt(nodes);
      var region, i := FindRegionWithAddr(sects[k].origin);
      if region == null {
        return Dead;
      }
      if !region.free {
        return Dead;
      }
      s := PutNode(region, i, k, sects[k].origin);
    }

    /** No section from k on has a region. */
    ghost predicate NoneFrom(k: nat)
      reads this
    {
      |regions| == |sects| && forall j :: k <= j < |regions| ==> regions[j] == null
    }

    /** Sections from k on have had no turn, and the rest of the run leads to `goal`. */
    ghost predicate Underway(k: nat, goal: Outcome)
      reads this, nodes, regions
    {
      && Valid() && NoneFrom(k) && |Spots()| == |sects| && k <= |sects|
      && PlaceStatics(sects, k, Spans(), Spots()) == goal
    }

    /** Section k's turn among the statics. */
    method PlaceIfStatic(k: nat, ghost goal: Outcome) returns (s: Status)
      requires k < |sects| && Underway(k, goal)
      modifies this, repr
      ensures if s == Fine then Underway(k + 1, goal) else Did(s, goal)
      ensures fresh(repr - old(repr))
    {
      hide PutStatic, Valid, PlaceStatics, Spots, View;
      IsValid();
      StaticTurn(sects, k, Spans(), Spots());
      s := Fine;
      if sects[k].fixed {
        s := PutStaticNode(k);
      }
    }

    method PlaceStaticRegions() returns (s: Status)
      requires Valid() && NoneFrom(0)
      modifies this, repr
      ensures Did(s, PlaceStatics(sects, 0, old(Spans()), old(Spots())))
      ensures fresh(repr - old(repr))
    {
      hide Underway, Did, PlaceStatics, Valid, Spots, View, NoneFrom;
      IsValid();
      ghost var goal := PlaceStatics(sects, 0, Spans(), Spots());
      NothingYet(goal);
      for k := 0 to |sects|
        invariant Underway(k, goal) && fresh(repr - old(repr))
      {
        s := PlaceIfStatic(k, goal);
        if s != Fine {
          return;
        }
      }
      s := Fine;
      AllThrough(goal);
    }

    lemma NothingYet(goal: Outcome)
      requires Valid() && NoneFrom(0) && |Spots()| == |sects| && goal == PlaceStatics(sects, 0, Spans(), Spots())
      ensures Underway(0, goal)
    {
    }

    lemma AllThrough(goal: Outcome)
      requires Underway(|sects|, goal)
      ensures Did(Fine, goal)
    {
      hide Valid, View;
    }

    method LargestNonplaced() returns (best: Option<nat>)
      requires Valid()
      ensures best == Largest(sects, Spots(), |sects|)
    {
      best := None;
      var size := 0;
      for k := 0 to |sects|
        invariant best == Largest(sects, Spots(), k)
        invariant size == if best.None? then 0 else SizeOf(sects, best.value)
      {
        if regions[k] != null {
          continue;
        }
        if size < |sects[k].code| {
          best := Some(k);
          size := |sects[k].code|;
        }
      }
    }

    method PutMovableNode(k: nat) returns (s: Status)
      requires Valid() && k < |sects| && regions[k] == null
      modifies this, repr
      ensures Did(s, PutMovable(sects, k, old(Spans()), old(Spots())))
      ensures fresh(repr - old(repr))
      ensures |regions| == |old(regions)| && forall j :: 0 <= j < |regions| && j != k ==> regions[j] == old(regions[j])
    {
      hide Put, FirstFit, Valid, View;
      IsValid();
      ViewAt(nodes);
      var region, i := FindFit(|sects[k].code|);
      if region == null {
        return Dead;
      }
      s := PutNode(region, i, k, region.start);
    }

    /** Places the section the loop has chosen. */
    method PlaceLargest(k: nat) returns (s: Status)
      requires Valid() && |Spots()| == |sects| && Largest(sects, Spots(), |sects|) == Some(k)
      modifies this, repr
      ensures s == Fine ==> Valid() && |Spots()| == |sects| && |old(Spots())| == |sects|
      ensures s == Fine ==> PlaceMovables(sects, old(Spans()), old(Spots())) == PlaceMovables(sects, Spans(), Spots())
      ensures s == Fine ==> Unplaced(sects, Spots(), |sects|) < Unplaced(sects, old(Spots()), |sects|)
      ensures s != Fine ==> Did(s, PlaceMovables(sects, old(Spans()), old(Spots())))
      ensures fresh(repr - old(repr))
    {
      hide PutMovable, Valid, Unplaced, PlaceMovables, Largest, Spots, View;
      IsValid();
      ghost var spots := Spots();
      MovableTurn(sects, Spans(), spots, k);
      s := PutMovableNode(k);
      if s == Fine {
        UnplacedDrops(sects, spots, k, Spots()[k].value, |sects|);
      }
    }

    /** The loop ends because every turn places one more section. */
    method PlaceMovableRegions() returns (s: Status)
      requires Valid()
      modifies this, repr
      ensures Did(s, PlaceMovables(sects, old(Spans()), old(Spots())))
    {
      hide PutMovable, Valid, Unplaced, PlaceMovables, Largest, Spots, View;
      IsValid();
      var entry := LargestNonplaced();
      while entry.Some?
        invariant Valid() && fresh(repr - old(repr))
        invariant |Spots()| == |sects| && entry == Largest(sects, Spots(), |sects|)
        invariant PlaceMovables(sects, Spans(), Spots()) == PlaceMovables(sects, old(Spans()), old(Spots()))
        decreases Unplaced(sects, Spots(), |sects|)
      {
        s := PlaceLargest(entry.value);
        if s != Fine {
          return;
        }
        entry := LargestNonplaced();
      }
      NoneLeft(sects, Spans(), Spots());
      s := Fine;
    }
  }

  lemma NoneLeft(sects: seq<Section>, c: Chain, where: Where)
    requires |where| == |sects| && Largest(sects, where, |sects|) == None
    ensures PlaceMovables(sects, c, where) == Placed(c, where)
  {
  }

  lemma StaticTurn(sects: seq<Section>, k: nat, c: Chain, where: Where)
    requires |where| == |sects| && k < |sects|
    ensures !sects[k].fixed ==> PlaceStatics(sects, k, c, where) == PlaceStatics(sects, k + 1, c, where)
    ensures sects[k].fixed ==>
              match PutStatic(sects, k, c, where)
              case Placed(d, w) => |w| == |sects| && PlaceStatics(sects, k, c, where) == PlaceStatics(sects, k + 1, d, w)
              case o => PlaceStatics(sects, k, c, where) == o
  {
    hide Insert;
  }

  /** One turn of the placement loop. */
  lemma MovableTurn(sects: seq<Section>, c: Chain, where: Where, k: nat)
    requires |where| == |sects| && Largest(sects, where, |sects|) == Some(k)
    ensures match PutMovable(sects, k, c, where)
            case Placed(d, w) =>
              && |w| == |sects| && w[k].Some? && w == where[k := w[k]]
              && PlaceMovables(sects, c, where) == PlaceMovables(sects, d, w)
            case o => PlaceMovables(sects, c, where) == o
  {
    hide Insert, Unplaced;
  }

  lemma PutIs(c: Chain, where: Where, i: nat, k: nat, start: int, size: int)
    requires i < |c| && k < |where|
    ensures Put(c, where, i, k, start, size) ==
            match Insert(c, i, Span(false, start, size, k))
            case None => Died
            case Some(d) =>
              if i == 0 && c[0].start == start && c[0].size == size then Dangling
              else Placed(d, where[k := Some(start)])
  {
    hide Insert;
  }

  lemma InsertFree(c: Chain, i: nat, r: Span)
    requires i < |c| && Insert(c, i, r).Some?
    ensures c[i].free
  {
  }

  lemma DistinctNodes(c: seq<Node>)
    requires Linked(c)
    ensures forall i, j :: 0 <= i < |c| && 0 <= j < |c| && i != j ==> c[i] != c[j]
  {
  }

  lemma LinkedNext(c: seq<Node>, i: nat)
    requires Linked(c) && i < |c|
    ensures c[i].next == if i + 1 < |c| then c[i + 1] else null
  {
    if i + 1 < |c| {
      assert c[i].next == c[i + 1];
    }
  }
}
