/**
 Stack frames: where each local of a function lies below bp.
 */
module Frames {
  import opened Words
  import opened Values

  /** A local and the bytes its type takes. */
  datatype Slot = Slot(x: Var, size: nat)

  function FrameSize(slots: seq<Slot>): nat {
    if slots == [] then 0 else slots[0].size + FrameSize(slots[1..])
  }

  /** The last local is emitted first, so a local starts below all the later ones. */
  function LayoutOf(slots: seq<Slot>): Layout {
    if slots == [] then map[]
    else LayoutOf(slots[1..])[slots[0].x := FrameSize(slots)]
  }

  ghost predicate Distinct(slots: seq<Slot>) {
    forall i, j :: 0 <= i < j < |slots| ==> slots[i].x != slots[j].x
  }

  lemma {:induction false} LayoutAt(slots: seq<Slot>, i: nat)
    requires Distinct(slots) && i < |slots|
    ensures slots[i].x in LayoutOf(slots)
    ensures LayoutOf(slots)[slots[i].x] == FrameSize(slots[i..])
  {
    if i == 0 {
      assert slots[0..] == slots;
    } else {
      assert slots[1..][i - 1] == slots[i] && slots[1..][i - 1..] == slots[i..];
      LayoutAt(slots[1..], i - 1);
    }
  }

  lemma {:induction false} LayoutDomain(slots: seq<Slot>, x: Var) returns (i: nat)
    requires x in LayoutOf(slots)
    ensures i < |slots| && slots[i].x == x
  {
    if slots[0].x == x {
      i := 0;
    } else {
      i := LayoutDomain(slots[1..], x);
      i := i + 1;
    }
  }

  /** Splitting a frame: the size is the sum of the parts. */
  lemma {:induction false} FrameSizeSplit(slots: seq<Slot>, i: nat)
    requires i <= |slots|
    ensures FrameSize(slots) == FrameSize(slots[..i]) + FrameSize(slots[i..])
  {
    if i == 0 {
      assert slots[0..] == slots;
    } else {
      assert slots[1..][..i - 1] == slots[..i][1..] && slots[1..][i - 1..] == slots[i..];
      FrameSizeSplit(slots[1..], i - 1);
    }
  }

  /** An earlier local lies strictly below a later one: local j starts at or after the end of local i. */
  lemma LayoutOrder(slots: seq<Slot>, i: nat, j: nat)
    requires Distinct(slots) && i < j < |slots|
    ensures FrameSize(slots[j..]) <= FrameSize(slots[i..]) - slots[i].size
    ensures slots[i].x in LayoutOf(slots) && slots[j].x in LayoutOf(slots)
    ensures LayoutOf(slots)[slots[j].x] <= LayoutOf(slots)[slots[i].x] - slots[i].size
  {
    hide LayoutOf;
    LayoutAt(slots, i);
    LayoutAt(slots, j);
    FrameStep(slots, i);
    hide FrameSize, Distinct;
    FrameSizeSplit(slots[i + 1..], j - i - 1);
    assert slots[i + 1..][j - i - 1..] == slots[j..];
  }

  lemma FrameStep(slots: seq<Slot>, i: nat)
    requires i < |slots|
    ensures FrameSize(slots[i..]) == slots[i].size + FrameSize(slots[i + 1..])
  {
    assert slots[i..][0] == slots[i] && slots[i..][1..] == slots[i + 1..];
  }

  /**
   The locals tile the frame: each byte of [bp - size, bp) belongs to exactly one local,
   and local i owns the `size` bytes from its emitted offset.
   */
  lemma FrameTiles(slots: seq<Slot>, d: nat) returns (i: nat)
    requires Distinct(slots) && 0 < d <= FrameSize(slots)
    ensures i < |slots| && slots[i].x in LayoutOf(slots)
    ensures var off := LayoutOf(slots)[slots[i].x]; off - slots[i].size < d <= off
    ensures forall j | 0 <= j < |slots| && j != i ::
              slots[j].x in LayoutOf(slots) &&
              !(LayoutOf(slots)[slots[j].x] - slots[j].size < d <= LayoutOf(slots)[slots[j].x])
  {
    i := FindSlot(slots, d);
    LayoutAt(slots, i);
    assert slots[i..][0] == slots[i] && slots[i..][1..] == slots[i + 1..];
    forall j | 0 <= j < |slots| && j != i
      ensures slots[j].x in LayoutOf(slots) &&
              !(LayoutOf(slots)[slots[j].x] - slots[j].size < d <= LayoutOf(slots)[slots[j].x])
    {
      LayoutAt(slots, j);
      if j < i { LayoutOrder(slots, j, i); } else { LayoutOrder(slots, i, j); }
    }
  }

  lemma {:induction false} FindSlot(slots: seq<Slot>, d: nat) returns (i: nat)
    requires 0 < d <= FrameSize(slots)
    ensures i < |slots| && FrameSize(slots[i + 1..]) < d <= FrameSize(slots[i..])
  {
    if FrameSize(slots[1..]) < d {
      i := 0;
      assert slots[0..] == slots;
    } else {
      i := FindSlot(slots[1..], d);
      assert slots[1..][i + 1..] == slots[i + 2..] && slots[1..][i..] == slots[i + 1..];
      i := i + 1;
    }
  }
}
