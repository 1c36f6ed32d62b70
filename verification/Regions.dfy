/**
 The linker's chain of memory regions: how inserting a region splits a free one, which
 insertions keep the chain whole.
 */
module Regions {
  import opened Words

  /** A stretch of the address space, free or owned by a section. */
  datatype Span = Span(free: bool, start: int, size: int, owner: nat) {
    function End(): int {
      start + size
    }
  }

  type Chain = seq<Span>

  predicate Contains(into: Span, r: Span) {
    && into.size >= r.size
    && r.start >= into.start
    && into.size - (r.start - into.start) >= r.size
  }

  function SpaceBefore(into: Span, r: Span): int {
    r.start - into.start
  }

  function SpaceAfter(into: Span, r: Span): int {
    into.size - (SpaceBefore(into, r) + r.size)
  }

  /** The region goes to the front of the free one and leaves a rest. */
  predicate Front(into: Span, r: Span) {
    SpaceBefore(into, r) == 0 && SpaceAfter(into, r) != 0
  }

  /**
   What is reachable from the first region after an insertion. Only a front insertion
   links the new region to what comes behind: in every other case the chain ends at the
   new region, or at the free rest right behind it.
   */
  function Insert(c: Chain, i: nat, r: Span): Option<Chain>
    requires i < |c|
  {
    var into := c[i];
    if !Contains(into, r) || !into.free then None
    else
      var before, after := SpaceBefore(into, r), SpaceAfter(into, r);
      if before != 0 && after != 0 then
        Some(c[..i] + [into.(size := before), r, Span(true, r.End(), after, 0)])
      else if before != 0 then Some(c[..i] + [into.(size := before), r])
      else if after != 0 then Some(c[..i] + [r, into.(start := r.End(), size := after)] + c[i + 1..])
      else Some(c[..i] + [r])
  }

  // Tiling ---------------------------------------------------------------------------

  function EndOf(c: Chain, lo: int): int {
    if c == [] then lo else EndOf(c[1..], lo + c[0].size)
  }

  /** Each region starts where the one before it ends. */
  predicate Contiguous(c: Chain, lo: int) {
    c == [] || (c[0].start == lo && c[0].size >= 0 && Contiguous(c[1..], lo + c[0].size))
  }

  /** The regions cover [lo, hi) in ascending order without gap or overlap. */
  predicate Tiles(c: Chain, lo: int, hi: int) {
    Contiguous(c, lo) && EndOf(c, lo) == hi
  }

  /** Free regions are not empty, and no two of them are neighbours. */
  predicate Settled(c: Chain) {
    && (forall i :: 0 <= i < |c| && c[i].free ==> c[i].size > 0)
    && forall i :: 0 <= i < |c| - 1 && c[i].free ==> !c[i + 1].free
  }

  lemma {:induction false} EndOfAppend(a: Chain, b: Chain, lo: int)
    ensures EndOf(a + b, lo) == EndOf(b, EndOf(a, lo))
    ensures Contiguous(a + b, lo) <==> Contiguous(a, lo) && Contiguous(b, EndOf(a, lo))
  {
    if a == [] {
      assert a + b == b;
    } else {
      assert (a + b)[1..] == a[1..] + b;
      EndOfAppend(a[1..], b, lo + a[0].size);
    }
  }

  lemma {:induction false} EndGrows(c: Chain, lo: int)
    requires Contiguous(c, lo)
    ensures lo <= EndOf(c, lo)
  {
    if c != [] {
      EndGrows(c[1..], lo + c[0].size);
    }
  }

  lemma EndOfOne(s: Span, lo: int)
    ensures EndOf([s], lo) == lo + s.size && (Contiguous([s], lo) <==> s.start == lo && s.size >= 0)
  {
    assert [s][1..] == [];
  }

  lemma EndOfTwo(s: Span, t: Span, lo: int)
    ensures EndOf([s, t], lo) == lo + s.size + t.size
    ensures Contiguous([s, t], lo) <==> s.start == lo && s.size >= 0 && t.start == lo + s.size && t.size >= 0
  {
    assert [s, t][1..] == [t];
    EndOfOne(t, lo + s.size);
  }

  lemma EndOfThree(s: Span, t: Span, u: Span, lo: int)
    ensures EndOf([s, t, u], lo) == lo + s.size + t.size + u.size
    ensures Contiguous([s, t, u], lo) <==>
            && s.start == lo && s.size >= 0 && t.start == lo + s.size && t.size >= 0
            && u.start == lo + s.size + t.size && u.size >= 0
  {
    assert [s, t, u][1..] == [t, u];
    EndOfTwo(t, u, lo + s.size);
  }

  /** The region at position i sits between what comes before and what comes behind. */
  lemma SplitAt(c: Chain, i: nat, lo: int)
    requires i < |c| && Contiguous(c, lo)
    ensures Contiguous(c[..i], lo) && EndOf(c[..i], lo) == c[i].start && c[i].size >= 0
    ensures Contiguous(c[i + 1..], c[i].End()) && EndOf(c[i + 1..], c[i].End()) == EndOf(c, lo)
    ensures lo <= c[i].start
  {
    hide EndOf, Contiguous;
    assert c == c[..i] + ([c[i]] + c[i + 1..]);
    EndOfAppend(c[..i], [c[i]] + c[i + 1..], lo);
    EndOfAppend([c[i]], c[i + 1..], EndOf(c[..i], lo));
    EndOfOne(c[i], EndOf(c[..i], lo));
    EndGrows(c[..i], lo);
  }

  lemma InOrder(c: Chain, i: nat, j: nat, lo: int)
    requires i < j < |c| && Contiguous(c, lo)
    ensures c[i].End() <= c[j].start
  {
    SplitAt(c, i, lo);
    assert c[i + 1..][j - i - 1] == c[j];
    SplitAt(c[i + 1..], j - i - 1, c[i].End());
  }

  /** The insertion loses nothing: it is a front insertion, or nothing lies behind. */
  predicate KeepsRest(c: Chain, i: nat, r: Span, hi: int)
    requires i < |c|
  {
    Front(c[i], r) || c[i].End() == hi
  }

  /**
   Inserting keeps the chain a tiling up to where it loses its tail: exactly the
   insertions at the front of a free region, or into one with nothing behind it, leave
   the whole address range tiled.
   */
  lemma InsertTiles(c: Chain, i: nat, r: Span, lo: int, hi: int)
    requires i < |c| && Tiles(c, lo, hi) && r.size >= 0 && Insert(c, i, r).Some?
    ensures Tiles(Insert(c, i, r).value, lo, if Front(c[i], r) then hi else c[i].End())
    ensures Tiles(Insert(c, i, r).value, lo, hi) <==> KeepsRest(c, i, r, hi)
  {
    hide EndOf, Contiguous;
    var into := c[i];
    var before, after := SpaceBefore(into, r), SpaceAfter(into, r);
    SplitAt(c, i, lo);
    if before != 0 && after != 0 {
      var rest := Span(true, r.End(), after, 0);
      EndOfAppend(c[..i], [into.(size := before), r, rest], lo);
      EndOfThree(into.(size := before), r, rest, into.start);
    } else if before != 0 {
      EndOfAppend(c[..i], [into.(size := before), r], lo);
      EndOfTwo(into.(size := before), r, into.start);
    } else if after != 0 {
      var rest := into.(start := r.End(), size := after);
      EndOfAppend(c[..i], [r, rest] + c[i + 1..], lo);
      EndOfAppend([r, rest], c[i + 1..], into.start);
      EndOfTwo(r, rest, into.start);
      assert c[..i] + [r, rest] + c[i + 1..] == c[..i] + ([r, rest] + c[i + 1..]);
    } else {
      EndOfAppend(c[..i], [r], lo);
      EndOfOne(r, into.start);
    }
  }

  lemma InsertSettled(c: Chain, i: nat, r: Span)
    requires i < |c| && Settled(c) && !r.free && Insert(c, i, r).Some?
    ensures Settled(Insert(c, i, r).value)
  {
  }

  /** An insertion that loses nothing keeps every allocated region that has any bytes, and
      the inserted region is there. */
  lemma InsertKeeps(c: Chain, i: nat, r: Span, s: Span, lo: int, hi: int)
    requires i < |c| && Tiles(c, lo, hi) && Insert(c, i, r).Some? && KeepsRest(c, i, r, hi)
    requires s in c && !s.free && s.size > 0
    ensures s in Insert(c, i, r).value
  {
    hide Tiles, Contains;
    var j :| 0 <= j < |c| && c[j] == s;
    var d := Insert(c, i, r).value;
    if j < i {
      assert d[j] == s;
    } else if Front(c[i], r) {
      assert i < j && d[j + 1] == s;
    } else {
      NothingBehind(c, i, j, lo, hi);
    }
  }

  /** Behind a region that ends the address range lie only empty ones. */
  lemma NothingBehind(c: Chain, i: nat, j: nat, lo: int, hi: int)
    requires i < |c| && j < |c| && Tiles(c, lo, hi) && c[i].End() == hi && c[j].size > 0 
    ensures j <= i
  {
    if i < j {
      InOrder(c, i, j, lo);
      SplitAt(c, j, lo);
      EndGrows(c[j + 1..], c[j].End());
    }
  }

  lemma InsertHas(c: Chain, i: nat, r: Span)
    requires i < |c| && Insert(c, i, r).Some?
    ensures r in Insert(c, i, r).value
  {
    var d := Insert(c, i, r).value;
    assert d[i] == r || d[i + 1] == r;
  }

  /** Everything in the chain after an insertion: an old region, the new one, or a free rest. */
  lemma InsertOnly(c: Chain, i: nat, r: Span, s: Span)
    requires i < |c| && Insert(c, i, r).Some? && s in Insert(c, i, r).value
    ensures s in c || s == r || (s.free && (s.End() == r.start || s.End() == c[i].End()))
  {
  }
}
