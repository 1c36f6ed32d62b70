/**
 The doubly linked region nodes, rewired in place, and the sequence of regions a walk
 from the first one sees.
 */
module RegionChain {
  import opened Words
  import opened Regions

  class Node {
    var next: Node?
    var prev: Node?
    var free: bool
    var start: int
    var size: int
    var owner: nat

    /** A fresh free region, linked to nothing. */
    constructor ()
      ensures next == null && prev == null && free && start == 0 && size == 0 && owner == 0
    {
      next, prev := null, null;
      free, start, size, owner := true, 0, 0, 0;
    }

    function ToSpan(): Span
      reads this
    {
      Span(free, start, size, owner)
    }
  }

  ghost function View(c: seq<Node>): (r: Chain)
    reads c
    ensures |r| == |c| && forall i :: 0 <= i < |c| ==> r[i] == c[i].ToSpan()
  {
    seq(|c|, i requires 0 <= i < |c| reads c => c[i].ToSpan())
  }

  ghost predicate NoRepeat(c: seq<Node>) {
    forall i, j :: 0 <= i < j < |c| ==> c[i] != c[j]
  }

  /** The links inside the sequence are those of a walk along `next`; and a free node knows
      its predecessor. */
  ghost predicate Stretch(c: seq<Node>)
    reads c
  {
    && (forall j :: 0 <= j < |c| - 1 ==> c[j].next == c[j + 1])
    && (forall j :: 0 < j < |c| && c[j].free ==> c[j].prev == c[j - 1])
  }

  /**
   A walk along `next` from the first node visits exactly `c`; the first node has no
   predecessor; and a free node knows its own. Allocated nodes may not: their `prev` is
   left unset by an insertion at the front of a free region.
   */
  ghost predicate Linked(c: seq<Node>)
    reads c
  {
    && NoRepeat(c) && Stretch(c)
    && (|c| > 0 ==> c[|c| - 1].next == null && c[0].prev == null)
  }

  /** True exactly when no address of the one region lies outside the other. */
  method RegionContains(into: Node, r: Node) returns (b: bool)
    ensures b <==> into.start <= r.start && r.start + r.size <= into.start + into.size
    ensures b == Contains(into.ToSpan(), r.ToSpan())
  {
    if into.size < r.size {
      return false;
    }
    if r.start < into.start {
      return false;
    }
    if into.size - (r.start - into.start) < r.size {
      return false;
    }
    return true;
  }

  /** The nodes `n` stands for: itself, or nothing. */
  ghost function Opt(n: Node?): set<Node> {
    if n == null then {} else {n}
  }

  /** Links `added` in front of `at`; the predecessor of `added` itself is not set. */
  method InsertBefore(at: Node, added: Node)
    requires at.prev != at && at.prev != added && at != added
    modifies at`prev, added`next, Opt(at.prev)`next
    ensures added.next == at && at.prev == added
    ensures old(at.prev) != null ==> old(at.prev).next == added
  {
    added.next := at;
    if at.prev != null {
      at.prev.next := added;
    }
    at.prev := added;
  }

  /** Links `added` behind `at`; the successor of `added` itself is not set. */
  method InsertAfter(at: Node, added: Node)
    requires at.next != at && at.next != added && at != added
    modifies at`next, added`prev, Opt(at.next)`prev
    ensures added.prev == at && at.next == added
    ensures old(at.next) != null ==> old(at.next).prev == added
  {
    added.prev := at;
    if at.next != null {
      at.next.prev := added;
    }
    at.next := added;
  }

  /** A free node of the chain and an allocated one that is linked to nothing. */
  ghost predicate Inserting(c: seq<Node>, i: nat, into: Node, r: Node)
    reads c, r
  {
    Linked(c) && i < |c| && c[i] == into && into.free && r !in c && r.next == null && r.prev == null && !r.free
  }

  lemma Around(c: seq<Node>, i: nat, into: Node, r: Node)
    requires Inserting(c, i, into, r)
    ensures into.next == (if i + 1 < |c| then c[i + 1] else null) && into.prev == (if i > 0 then c[i - 1] else null)
    ensures i + 1 < |c| ==> c[i + 1] != into && c[i + 1] != r && c[i + 1] in c
    ensures i > 0 ==> c[i - 1] != into && c[i - 1] != r && c[i - 1] in c && c[i - 1].next == into
    ensures i == 0 ==> into.prev == null
    ensures i + 1 < |c| && c[i + 1].free ==> c[i + 1].prev == into
    ensures into != r && into in c
  {
  }

  lemma ViewAt(c: seq<Node>)
    ensures |View(c)| == |c| && forall i :: 0 <= i < |c| ==> View(c)[i] == c[i].ToSpan()
  {
  }

  lemma SameView(d: seq<Node>, v: Chain)
    requires |d| == |v| && forall j :: 0 <= j < |d| ==> d[j].ToSpan() == v[j]
    ensures View(d) == v
  {
  }

  /** Two stretches joined by the links between their ends. */
  lemma JoinStretch(a: seq<Node>, b: seq<Node>)
    requires |a| > 0 && |b| > 0 && Stretch(a) && Stretch(b)
    requires a[|a| - 1].next == b[0] && (b[0].free ==> b[0].prev == a[|a| - 1])
    ensures Stretch(a + b)
  {
    var c := a + b;
    forall j | 0 <= j < |c| - 1 ensures c[j].next == c[j + 1] {
      if j < |a| - 1 { assert c[j] == a[j] && c[j + 1] == a[j + 1]; }
      else if j >= |a| { assert c[j] == b[j - |a|] && c[j + 1] == b[j + 1 - |a|]; }
    }
    forall j | 0 < j < |c| && c[j].free ensures c[j].prev == c[j - 1] {
      if j < |a| { assert c[j] == a[j] && c[j - 1] == a[j - 1]; }
      else if j > |a| { assert c[j] == b[j - |a|] && c[j - 1] == b[j - 1 - |a|]; }
    }
  }

  lemma PartStretch(c: seq<Node>, lo: nat, hi: nat)
    requires lo <= hi <= |c| && Stretch(c)
    ensures Stretch(c[lo..hi])
  {
    var p := c[lo..hi];
    forall j | 0 <= j < hi - lo - 1 ensures p[j].next == p[j + 1] {
      assert p[j] == c[lo + j] && p[j + 1] == c[lo + j + 1];
    }
    forall j | 0 < j < hi - lo && p[j].free ensures p[j].prev == p[j - 1] {
      assert p[j] == c[lo + j] && p[j - 1] == c[lo + j - 1];
    }
  }

  lemma NoRepeatSplit(c: seq<Node>, i: nat)
    requires NoRepeat(c) && i < |c|
    ensures c[i] !in c[..i] && c[i] !in c[i + 1..] && NoRepeat(c[..i]) && NoRepeat(c[i + 1..])
    ensures forall n :: n in c[..i] ==> n !in c[i + 1..]
  {
  }

  /** The chain around position i, before anything is changed. */
  ghost predicate Parts(c: seq<Node>, i: nat, into: Node, L: seq<Node>, T: seq<Node>)
    reads c, L, T
  {
    && i < |c| && c[i] == into && L == c[..i] && T == c[i + 1..]
    && Stretch(L) && Stretch(T)
    && (|L| > 0 ==> L[0].prev == null) && (|T| > 0 ==> T[|T| - 1].next == null)
    && into !in L && into !in T && NoRepeat(L) && NoRepeat(T) && forall n :: n in L ==> n !in T
  }

  lemma PartsOf(c: seq<Node>, i: nat, into: Node, r: Node)
    requires Inserting(c, i, into, r)
    ensures Parts(c, i, into, c[..i], c[i + 1..])
  {
    PartStretch(c, 0, i);
    PartStretch(c, i + 1, |c|);
    NoRepeatSplit(c, i);
  }

  /** Links `d` in behind the untouched front part of the chain. */
  lemma Rejoin(L: seq<Node>, d: seq<Node>)
    requires |d| > 0 && Stretch(L) && Stretch(d) && NoRepeat(L + d) && d[|d| - 1].next == null
    requires if |L| > 0 then L[0].prev == null && L[|L| - 1].next == d[0] && (d[0].free ==> d[0].prev == L[|L| - 1]) else d[0].prev == null
    ensures Linked(L + d)
  {
    hide Stretch, NoRepeat;
    if |L| > 0 {
      JoinStretch(L, d);
      assert (L + d)[0] == L[0];
    } else {
      assert L + d == d;
    }
    assert (L + d)[|L + d| - 1] == d[|d| - 1];
  }

  lemma JoinFresh(L: seq<Node>, d: seq<Node>)
    requires NoRepeat(L) && NoRepeat(d) && forall n :: n in L ==> n !in d
    ensures NoRepeat(L + d)
  {
    forall i, j | 0 <= i < j < |L + d| ensures (L + d)[i] != (L + d)[j] {
      if i < |L| <= j {
        assert (L + d)[i] in L && (L + d)[j] in d;
      }
    }
  }

  /** The node takes the end of the free one; what was behind is left behind. */
  method InsertBack(into: Node, r: Node, left: int, ghost c: seq<Node>, ghost i: nat) returns (ghost d: seq<Node>)
    requires Inserting(c, i, into, r)
    modifies c, r
    ensures Linked(d) && d == c[..i] + [into, r]
    ensures View(d) == old(View(c))[..i] + [old(into.ToSpan()).(size := left), old(r.ToSpan())]
    ensures forall n :: (n in c || n == r) && n != into ==> n.ToSpan() == old(n.ToSpan())
  {
    hide Linked, View;
    Around(c, i, into, r);
    PartsOf(c, i, into, r);
    ViewAt(c);
    ghost var L, e := c[..i], [into, r];
    assert forall n :: n in L ==> n != into && n != r && n != into.next;
    assert |L| > 0 ==> L[|L| - 1].next == into && L[0].prev == null && (into.prev == L[|L| - 1]);
    assert |L| == 0 ==> into.prev == null;
    InsertAfter(into, r);
    into.size := left;
    d := L + e;
    assert forall j :: 0 <= j < |L| ==> L[j] in L && L[j].next == old(L[j].next) && L[j].prev == old(L[j].prev);
    JoinFresh(L, e);
    Rejoin(L, e);
    SameView(d, old(View(c))[..i] + [old(into.ToSpan()).(size := left), old(r.ToSpan())]);
  }

  lemma AddedLast(c: seq<Node>, rest: Node)
    requires |c| > 0 && NoRepeat(c) && Stretch(c) && c[0].prev == null && rest !in c
    requires c[|c| - 1].next == rest && rest.prev == c[|c| - 1] && rest.next == null
    ensures Linked(c + [rest])
  {
    assert NoRepeat([rest]) && Stretch([rest]);
    JoinFresh(c, [rest]);
    JoinStretch(c, [rest]);
  }

  /** Links a fresh node behind the last one. */
  method AddLast(last: Node, rest: Node, ghost c: seq<Node>) returns (ghost d: seq<Node>)
    requires Linked(c) && |c| > 0 && c[|c| - 1] == last && rest !in c && rest.next == null
    modifies last`next, rest`prev
    ensures Linked(d) && d == c + [rest]
  {
    assert c[|c| - 1].next == null;
    assert forall j :: 0 <= j < |c| ==> c[j] in c && c[j] != rest && (j < |c| - 1 ==> c[j] != last);
    InsertAfter(last, rest);
    d := c + [rest];
    assert Stretch(c);
    hide Linked, Stretch, NoRepeat;
    AddedLast(c, rest);
  }

  /** The node goes into the middle of the free one; a new node takes the rest. */
  method InsertMiddle(into: Node, r: Node, left: int, after: int, ghost c: seq<Node>, ghost i: nat)
    returns (ghost d: seq<Node>)
    requires Inserting(c, i, into, r)
    modifies c, r
    ensures Linked(d) && |d| == i + 3 && d[..i + 2] == c[..i] + [into, r] && fresh(d[i + 2])
    ensures View(d) == old(View(c))[..i] + [old(into.ToSpan()).(size := left), old(r.ToSpan()),
                                            Span(true, old(r.start) + old(r.size), after, 0)]
    ensures forall n :: (n in c || n == r) && n != into ==> n.ToSpan() == old(n.ToSpan())
  {
    hide Linked, View;
    ghost var e := InsertBack(into, r, left, c, i);
    label split:
    ViewAt(e);
    var rest := new Node();
    rest.size := after;
    rest.start := r.start + r.size;
    assert e[i + 1] == r && View(e)[i + 1] == r.ToSpan();
    d := AddLast(r, rest, e);
    SameView(d, old@split(View(e)) + [Span(true, old(r.start) + old(r.size), after, 0)]);
  }

  /** The chain after the new node was linked in front of the free one. */
  lemma FrontLinked(into: Node, r: Node, L: seq<Node>, T: seq<Node>)
    requires Stretch(L) && Stretch(T) && !r.free && into != r
    requires NoRepeat(L) && NoRepeat(T) && forall n :: n in L ==> n !in T && n != into && n != r
    requires into !in T && r !in T
    requires r.next == into && into.prev == r
    requires if |T| > 0 then into.next == T[0] && (T[0].free ==> T[0].prev == into) && T[|T| - 1].next == null
             else into.next == null
    requires if |L| > 0 then L[|L| - 1].next == r && L[0].prev == null else r.prev == null
    ensures Linked(L + ([r, into] + T))
  {
    var e := [r, into];
    assert Stretch(e) && NoRepeat(e);
    var d := e + T;
    JoinFresh(e, T);
    if |T| > 0 {
      JoinStretch(e, T);
      assert d[|d| - 1] == T[|T| - 1];
    } else {
      assert d == e;
    }
    assert d[0] == r;
    JoinFresh(L, d);
    Rejoin(L, d);
  }

  /** What lies before and behind the free node. */
  lemma Sides(c: seq<Node>, i: nat, into: Node, r: Node)
    requires Inserting(c, i, into, r)
    ensures i < |c| && into in c && into != r && into.next != r && into.prev != r && into.prev != into && !r.free && r.prev == null
    ensures var L, T := c[..i], c[i + 1..];
            && Stretch(L) && Stretch(T) && NoRepeat(L) && NoRepeat(T)
            && (forall n :: n in T ==> n in c && n != into && n != r && n != into.prev)
            && (forall n :: n in L ==> n in c && n != into && n != r && n !in T)
            && (forall j :: 0 <= j < |L| - 1 ==> L[j] != into.prev)
            && (if |T| > 0 then into.next == T[0] && (T[0].free ==> T[0].prev == into) && T[|T| - 1].next == null
                else into.next == null)
            && (if |L| > 0 then into.prev == L[|L| - 1] && L[0].prev == null else into.prev == null)
  {
    hide Linked;
    Around(c, i, into, r);
    PartsOf(c, i, into, r);
  }

  /** Linking in front of a node keeps the stretch that ended at it. */
  method InsertBehind(ghost L: seq<Node>, into: Node, r: Node)
    requires into.prev != into && into.prev != r && into != r
    requires Stretch(L) && NoRepeat(L) && into !in L && r !in L
    requires into.prev == if |L| > 0 then L[|L| - 1] else null
    modifies into`prev, r`next, Opt(into.prev)`next
    ensures r.next == into && into.prev == r && Stretch(L)
    ensures |L| > 0 ==> L[|L| - 1].next == r && L[0].prev == old(L[0].prev)
  {
    InsertBefore(into, r);
    assert forall j :: 0 <= j < |L| ==> L[j] in L && L[j].prev == old(L[j].prev);
    assert forall j :: 0 <= j < |L| - 1 ==> L[j] != L[|L| - 1] && L[j].next == old(L[j].next);
  }

  /** The links of a front insertion; sizes and addresses are still the old ones. */
  method LinkFront(into: Node, r: Node, ghost c: seq<Node>, ghost i: nat) returns (ghost d: seq<Node>)
    requires Inserting(c, i, into, r)
    modifies c, r
    ensures Linked(d) && d == c[..i] + ([r, into] + c[i + 1..])
    ensures forall n :: n in c || n == r ==> n.ToSpan() == old(n.ToSpan())
  {
    hide Linked, Inserting, Stretch, NoRepeat, Parts;
    Sides(c, i, into, r);
    ghost var L, T := c[..i], c[i + 1..];
    InsertBehind(L, into, r);
    assert forall n :: n in T ==> n.next == old(n.next) && n.prev == old(n.prev) && n.free == old(n.free);
    FrontLinked(into, r, L, T);
    d := L + ([r, into] + T);
  }

  method Resize(n: Node, start: int, size: int, ghost d: seq<Node>)
    requires Linked(d)
    modifies n`start, n`size
    ensures Linked(d) && n.ToSpan() == old(n.ToSpan()).(start := start, size := size)
  {
    n.size := size;
    n.start := start;
  }

  lemma Others(c: seq<Node>, i: nat, into: Node, r: Node)
    requires Inserting(c, i, into, r)
    ensures forall j :: 0 <= j < |c| ==> c[j] in c && c[j] != r && (j != i ==> c[j] != into)
    ensures into != r
  {
  }

  /** The node takes the front of the free one. */
  method InsertFront(into: Node, r: Node, from: int, left: int, ghost c: seq<Node>, ghost i: nat)
    returns (ghost d: seq<Node>)
    requires Inserting(c, i, into, r)
    modifies c, r
    ensures Linked(d) && d == c[..i] + ([r, into] + c[i + 1..])
    ensures View(d) == old(View(c))[..i] + [old(r.ToSpan()), old(into.ToSpan()).(start := from, size := left)] +
                       old(View(c))[i + 1..]
    ensures forall n :: (n in c || n == r) && n != into ==> n.ToSpan() == old(n.ToSpan())
  {
    hide View, Linked;
    Others(c, i, into, r);
    ViewAt(c);
    d := LinkFront(into, r, c, i);
    Resize(into, from, left, d);
    SameView(d, old(View(c))[..i] + [old(r.ToSpan()), old(into.ToSpan()).(start := from, size := left)] + old(View(c))[i + 1..]);
  }

  /** The links of a replacement. */
  method LinkReplace(into: Node, r: Node, ghost c: seq<Node>, ghost i: nat) returns (ghost d: seq<Node>)
    requires Inserting(c, i, into, r)
    modifies c, r
    ensures Linked(d) && d == c[..i] + [r]
    ensures forall n :: n in c || n == r ==> n.ToSpan() == old(n.ToSpan())
  {
    hide Linked;
    Around(c, i, into, r);
    PartsOf(c, i, into, r);
    ghost var L, e := c[..i], [r];
    assert forall n :: n in L ==> n != into && n != r && n != into.next;
    assert |L| > 0 ==> into.prev == L[|L| - 1] && L[0].prev == null;
    if into.prev != null {
      into.prev.next := r;
    }
    if into.next != null {
      into.next.prev := r;
    }
    into.next := null;
    into.prev := null;
    d := L + e;
    assert forall j :: 0 <= j < |L| ==> L[j] in L && L[j].prev == old(L[j].prev);
    assert forall j :: 0 <= j < |L| - 1 ==> L[j] != L[|L| - 1] && L[j].next == old(L[j].next);
    JoinFresh(L, e);
    Rejoin(L, e);
  }

  /** The node takes the place of the free one; what was behind is left behind. */
  method Replace(into: Node, r: Node, ghost c: seq<Node>, ghost i: nat) returns (ghost d: seq<Node>)
    requires Inserting(c, i, into, r)
    modifies c, r
    ensures Linked(d) && d == c[..i] + [r]
    ensures View(d) == old(View(c))[..i] + [old(r.ToSpan())]
    ensures forall n :: (n in c || n == r) && n != into ==> n.ToSpan() == old(n.ToSpan())
  {
    hide Linked, View;
    ViewAt(c);
    d := LinkReplace(into, r, c, i);
    SameView(d, old(View(c))[..i] + [old(r.ToSpan())]);
  }

  /** The old first node is still the first, or the second and knows its predecessor. */
  ghost predicate HeadNear(c: seq<Node>, d: seq<Node>)
    requires |c| > 0
    reads d
  {
    |d| > 0 && (d[0] == c[0] || (|d| > 1 && d[1] == c[0] && d[1].prev == d[0]))
  }

  /** A free second node knows the first. */
  lemma SecondKnows(d: seq<Node>)
    requires Linked(d) && |d| > 1 && d[1].free
    ensures d[1].prev == d[0]
  {
  }

  /**
   Inserts an unlinked node into the i-th node of the chain, or fails and changes nothing.
   The walk from the first node then sees what `Insert` says.
   */
  method RegionInsert(into: Node, r: Node, ghost c: seq<Node>, ghost i: nat)
    returns (failed: bool, ghost d: seq<Node>)
    requires Linked(c) && i < |c| && c[i] == into
    requires r !in c && r.next == null && r.prev == null && !r.free
    modifies c, r
    ensures failed == Insert(old(View(c)), i, old(r.ToSpan())).None?
    ensures failed ==> d == c && View(c) == old(View(c)) && Linked(c)
    ensures !failed ==> Linked(d) && View(d) == Insert(old(View(c)), i, old(r.ToSpan())).value
    ensures forall n :: n in d ==> n in c || n == r || fresh(n)
    ensures !failed && (i > 0 || old(into.start) != r.start || old(into.size) != r.size) ==> HeadNear(c, d)
    ensures forall n :: (n in c || n == r) && n != into ==> n.ToSpan() == old(n.ToSpan())
  {
    hide Linked, View;
    ViewAt(c);
    d := c;
    var fits := RegionContains(into, r);
    if !fits {
      return true, c;
    }
    if !into.free {
      return true, c;
    }
    failed := false;
    var before := r.start - into.start;
    var after := into.size - (before + r.size);
    if before != 0 && after != 0 {
      d := InsertMiddle(into, r, into.size - (r.size + after), after, c, i);
      assert forall n :: n in d ==> n in d[..i + 2] || n == d[i + 2];
    } else if before != 0 {
      d := InsertBack(into, r, into.size - r.size, c, i);
    } else if after != 0 {
      d := InsertFront(into, r, into.start + r.size, into.size - r.size, c, i);
      if i == 0 {
        assert View(d)[1] == d[1].ToSpan() by { ViewAt(d); }
        SecondKnows(d);
      }
    } else {
      d := Replace(into, r, c, i);
    }
  }
}
