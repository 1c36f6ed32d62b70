/**
 The growing byte buffer of the toolchain library, and the sequence it refines.
 */
module ByteBuffers {
  import opened Words

  // The sequence ---------------------------------------------------------------

  /** `bytes` laid over `s` from `index` on; a gap before `index` reads zero. */
  function InsertAt(s: seq<u8>, bytes: seq<u8>, index: nat): (r: seq<u8>)
    ensures |r| == if |s| >= index + |bytes| then |s| else index + |bytes|
    ensures forall k :: 0 <= k < |r| ==>
              r[k] == if index <= k < index + |bytes| then bytes[k - index] else if k < |s| then s[k] else 0
  {
    seq(if |s| >= index + |bytes| then |s| else index + |bytes|,
        k requires 0 <= k =>
          if index <= k < index + |bytes| then bytes[k - index] else if k < |s| then s[k] else 0)
  }

  function Fill(b: u8, n: nat): (r: seq<u8>)
    ensures |r| == n && forall k :: 0 <= k < n ==> r[k] == b
  {
    seq(n, _ => b)
  }

  /** Inserting at the end appends. */
  lemma InsertAtEnd(s: seq<u8>, bytes: seq<u8>)
    ensures InsertAt(s, bytes, |s|) == s + bytes
  {
  }

  /** Inserting past the end appends behind zeros. */
  lemma InsertPastEnd(s: seq<u8>, bytes: seq<u8>, index: nat)
    requires |s| <= index
    ensures InsertAt(s, bytes, index) == s + Fill(0, index - |s|) + bytes
  {
  }

  datatype Op =
    | Append(b: u8)
    | AppendRange(bytes: seq<u8>)
    | Insert(b: u8, index: nat)
    | InsertRange(bytes: seq<u8>, index: nat)
    | InsertFill(b: u8, index: nat, n: nat)
    | Clear

  function Apply(op: Op, s: seq<u8>): seq<u8> {
    match op
    case Append(b) => s + [b]
    case AppendRange(bytes) => s + bytes
    case Insert(b, i) => InsertAt(s, [b], i)
    case InsertRange(bytes, i) => InsertAt(s, bytes, i)
    case InsertFill(b, i, n) => InsertAt(s, Fill(b, n), i)
    case Clear => []
  }

  function ApplyAll(ops: seq<Op>): seq<u8> {
    if ops == [] then [] else Apply(ops[|ops| - 1], ApplyAll(ops[..|ops| - 1]))
  }

  /** Two inserts at disjoint places commute. */
  lemma InsertsCommute(s: seq<u8>, a: seq<u8>, i: nat, b: seq<u8>, j: nat)
    requires i + |a| <= j || j + |b| <= i
    ensures InsertAt(InsertAt(s, a, i), b, j) == InsertAt(InsertAt(s, b, j), a, i)
  {
    var l, r := InsertAt(InsertAt(s, a, i), b, j), InsertAt(InsertAt(s, b, j), a, i);
    assert |l| == |r|;
    assert forall k :: 0 <= k < |l| ==> l[k] == r[k];
  }

  // The buffer -----------------------------------------------------------------

  /** The bytes asked for, rounded up to the next block of 64, or of 1024 from 1024 on. */
  function AllocationSize(required: nat): (r: nat)
    ensures required < r
  {
    var alignment := if required >= 1024 then 1024 else 64;
    (required / alignment + 1) * alignment
  }

  class ByteBuffer {
    var alloc: array?<u8>
    var size: nat
    var space: nat
    var frozen: bool

    ghost predicate Valid()
      reads this, alloc
    {
      && (alloc == null ==> space == 0)
      && (alloc != null ==> alloc.Length == space)
      && size <= space
      && (forall k :: size <= k < space ==> alloc[k] == 0)
    }

    ghost function Contents(): seq<u8>
      requires Valid()
      reads this, alloc
    {
      if alloc == null then [] else alloc[..size]
    }

    constructor ()
      ensures Valid() && Contents() == [] && !frozen && alloc == null
    {
      alloc := null;
      size := 0;
      space := 0;
      frozen := false;
    }

    /** Room for `required` bytes; contents stay, and everything behind them is zero. */
    method EnsureSize(required: nat)
      requires Valid()
      modifies this
      ensures Valid() && Contents() == old(Contents()) && required <= space && old(space) <= space
      ensures size == old(size) && frozen == old(frozen)
      ensures alloc == old(alloc) || fresh(alloc)
    {
      if required <= space {
        return;
      }
      var n := AllocationSize(required);
      var bigger := new u8[n](_ => 0);
      if space != 0 {
        var i := 0;
        while i < size
          invariant 0 <= i <= size <= bigger.Length
          invariant alloc == old(alloc) && alloc != null && size == old(size) && frozen == old(frozen)
          invariant Valid() && space == old(space) && alloc[..] == old(alloc[..])
          invariant bigger[..i] == alloc[..i]
          invariant forall k :: i <= k < n ==> bigger[k] == 0
        {
          bigger[i] := alloc[i];
          i := i + 1;
        }
      }
      alloc := bigger;
      space := n;
    }

    /** Every change to a frozen buffer is refused. */
    method InsertRange(bytes: seq<u8>, index: nat) returns (ok: bool)
      requires Valid()
      modifies this, alloc
      ensures Valid() && frozen == old(frozen) && ok == !frozen
      ensures Contents() == if ok then InsertAt(old(Contents()), bytes, index) else old(Contents())
      ensures alloc == old(alloc) || fresh(alloc)
    {
      if frozen {
        return false;
      }
      EnsureSize(index + |bytes|);
      label grown:
      ghost var before := Contents();
      var i := 0;
      while i < |bytes|
        invariant 0 <= i <= |bytes|
        invariant alloc == old@grown(alloc) && space == old@grown(space) && size == old@grown(size)
        invariant frozen == old(frozen) && index + |bytes| <= space
        invariant alloc != null ==> alloc.Length == space
        invariant forall k :: 0 <= k < space ==>
                    alloc[k] == if index <= k < index + i then bytes[k - index] else old@grown(alloc[k])
      {
        alloc[index + i] := bytes[i];
        i := i + 1;
      }
      if size < index + |bytes| {
        size := index + |bytes|;
      }
      assert alloc == null ==> InsertAt(before, bytes, index) == [];
      assert alloc != null ==> Contents() == InsertAt(before, bytes, index);
      return true;
    }

    method InsertByte(b: u8, index: nat) returns (ok: bool)
      requires Valid()
      modifies this, alloc
      ensures Valid() && frozen == old(frozen) && ok == !frozen
      ensures Contents() == if ok then InsertAt(old(Contents()), [b], index) else old(Contents())
      ensures alloc == old(alloc) || fresh(alloc)
    {
      ok := InsertRange([b], index);
    }

    method InsertFill(b: u8, index: nat, n: nat) returns (ok: bool)
      requires Valid()
      modifies this, alloc
      ensures Valid() && frozen == old(frozen) && ok == !frozen
      ensures Contents() == if ok then InsertAt(old(Contents()), Fill(b, n), index) else old(Contents())
      ensures alloc == old(alloc) || fresh(alloc)
    {
      ok := InsertRange(Fill(b, n), index);
    }

    method AppendRange(bytes: seq<u8>) returns (ok: bool)
      requires Valid()
      modifies this, alloc
      ensures Valid() && frozen == old(frozen) && ok == !frozen
      ensures Contents() == if ok then old(Contents()) + bytes else old(Contents())
      ensures alloc == old(alloc) || fresh(alloc)
    {
      InsertAtEnd(Contents(), bytes);
      ok := InsertRange(bytes, size);
    }

    method Clear() returns (ok: bool)
      requires Valid()
      modifies this
      ensures Valid() && frozen == old(frozen) && ok == !frozen
      ensures Contents() == if ok then [] else old(Contents())
      ensures alloc == old(alloc) || alloc == null
    {
      if frozen {
        return false;
      }
      alloc := null;
      space := 0;
      size := 0;
      return true;
    }

    method Bytes() returns (r: seq<u8>)
      requires Valid()
      ensures r == Contents()
    {
      r := if alloc == null then [] else alloc[..size];
    }

    method At(index: nat) returns (r: Option<u8>)
      requires Valid()
      ensures r == if index < |Contents()| then Some(Contents()[index]) else None
    {
      if index >= size {
        return None;
      }
      return Some(alloc[index]);
    }

    /** A read of up to `n` bytes: cut off at the end, an error from the end on, and
        empty on an empty buffer. */
    method GetRange(start: nat, n: nat) returns (r: Option<seq<u8>>)
      requires Valid()
      ensures var c := Contents();
              r == if c == [] then Some([])
                   else if start >= |c| then None
                   else Some(c[start..if start + n > |c| then |c| else start + n])
    {
      if size == 0 {
        return Some([]);
      }
      if start >= size {
        return None;
      }
      var stop := if start + n > size then size else start + n;
      var all := alloc[..size];
      return Some(all[start..stop]);
    }
  }

  /** Any run of operations on a fresh buffer leaves exactly what the same run leaves of
      the empty sequence, across all reallocations. */
  method RunOps(ops: seq<Op>) returns (buf: ByteBuffer)
    ensures fresh(buf) && buf.Valid() && buf.Contents() == ApplyAll(ops)
  {
    buf := new ByteBuffer();
    var i := 0;
    while i < |ops|
      invariant 0 <= i <= |ops|
      invariant fresh(buf) && buf.Valid() && !buf.frozen && (buf.alloc == null || fresh(buf.alloc))
      invariant buf.Contents() == ApplyAll(ops[..i])
    {
      assert ops[..i + 1][..i] == ops[..i] && ops[..i + 1][i] == ops[i];
      var ok: bool;
      match ops[i] {
        case Append(b) => ok := buf.AppendRange([b]);
        case AppendRange(bytes) => ok := buf.AppendRange(bytes);
        case Insert(b, index) => ok := buf.InsertByte(b, index);
        case InsertRange(bytes, index) => ok := buf.InsertRange(bytes, index);
        case InsertFill(b, index, n) => ok := buf.InsertFill(b, index, n);
        case Clear => ok := buf.Clear();
      }
      i := i + 1;
    }
    assert ops[..|ops|] == ops;
  }
}
