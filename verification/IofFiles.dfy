/**
 The object file writer and the section readers as loops.
 */
module IofFiles {
  import opened Words
  import opened ByteBuffers
  import opened Iof
  import opened IofFile
  import opened IofBuilders

  lemma {:induction false} SectionsSnoc(images: seq<Bytes>, i: nat)
    requires i < |images|
    ensures Sections(images[..i + 1]) == Sections(images[..i]) + images[i]
  {
    if i == 0 {
      assert images[..1] == [images[0]] && images[..1][1..] == [] && images[..0] == [];
      assert Sections([]) == [];
    } else {
      assert images[..i + 1][1..] == images[1..][..i] && images[..i][1..] == images[1..][..i - 1];
      SectionsSnoc(images[1..], i - 1);
    }
  }

  /** The file when i sections have been written: their pointers are filled in, the others
      are still zero. */
  function Written(images: seq<Bytes>, i: nat): Bytes
    requires i <= |images|
  {
    FileHeader(|images|) + WordBytes(Pointers(images)[..i]) + Fill(0, 2 * (|images| - i)) + Sections(images[..i])
  }

  lemma WrittenStart(images: seq<Bytes>)
    ensures InsertAt(FileHeader(|images|), Fill(0, 2 * |images|), FILE_HEADER_SIZE) == Written(images, 0)
  {
    hide FileHeader, Pointers;
    var H, Z := FileHeader(|images|), Fill(0, 2 * |images|);
    InsertAtEnd(H, Z);
    assert Pointers(images)[..0] == [] && images[..0] == [];
    assert WordBytes([]) == [] && Sections([]) == [];
    assert H + [] == H && H + Z + [] == H + Z;
  }

  lemma WrittenSize(images: seq<Bytes>, i: nat, res: ByteBuffer)
    requires i < |images| && res.Valid() && res.Contents() == Written(images, i)
    ensures Pointers(images)[i] == Wrap(res.size)
  {
    hide FileHeader, WordBytes, Sections;
    ContentsSize(res);
  }

  lemma WrittenStep(images: seq<Bytes>, i: nat)
    requires i < |images|
    ensures var p := Pointers(images)[i];
            InsertAt(Written(images, i), [Lo(p), Hi(p)], FILE_HEADER_SIZE + 2 * i) + images[i] == Written(images, i + 1)
  {
    hide FileHeader, WordBytes, Sections, Pointers, Fill, InsertAt;
    var p := Pointers(images)[i];
    var pre := FileHeader(|images|) + WordBytes(Pointers(images)[..i]);
    var left := Fill(0, 2 * (|images| - i - 1));
    PointerFill(2 * (|images| - i));
    Assoc(pre, Fill(0, 2), left);
    Assoc(pre + Fill(0, 2), left, Sections(images[..i]));
    Overwrite(pre, Fill(0, 2), left + Sections(images[..i]), [Lo(p), Hi(p)]);
    assert Pointers(images)[..i + 1] == Pointers(images)[..i] + [p];
    WordBytesAdd(Pointers(images)[..i], p);
    SectionsSnoc(images, i);
    Relinked(FileHeader(|images|), WordBytes(Pointers(images)[..i]), [Lo(p), Hi(p)], left, Sections(images[..i]), images[i]);
  }

  lemma Relinked(h: Bytes, table: Bytes, p: Bytes, left: Bytes, done: Bytes, s: Bytes)
    ensures h + table + p + (left + done) + s == h + (table + p) + left + (done + s)
  {
    Assoc(h, table, p);
    Assoc(h + table + p, left, done);
    Assoc(h + table + p + left, done, s);
  }

  lemma PointerFill(n: nat)
    requires n >= 2
    ensures Fill(0, n) == Fill(0, 2) + Fill(0, n - 2)
  {
  }

  lemma WrittenEnd(images: seq<Bytes>)
    ensures Written(images, |images|) == FileBytes(images)
  {
    hide FileHeader, WordBytes, Sections, Pointers;
    assert Fill(0, 0) == [] && Pointers(images)[..|images|] == Pointers(images) && images[..|images|] == images;
    var pre := FileHeader(|images|) + WordBytes(Pointers(images));
    assert pre + [] == pre;
  }

  class FileBuilder {
    var images: seq<Bytes>

    constructor ()
      ensures images == []
    {
      images := [];
    }

    /** Builds the section at once; false where that throws. */
    method AddSection(part: SectionBuilder) returns (ok: bool)
      modifies this
      ensures ok == Builds(part.Abs())
      ensures images == old(images) + if ok then [Build(part.Abs())] else []
    {
      var buf;
      buf, ok := part.BuildImage();
      if ok {
        var bytes := buf.Bytes();
        images := images + [bytes];
      }
    }

    method BuildFile() returns (res: ByteBuffer)
      ensures fresh(res) && res.Valid() && res.Contents() == FileBytes(images)
    {
      hide *;
      res := new ByteBuffer();
      var done := res.AppendRange(FileHeader(|images|));
      HeaderFirst(|images|);
      WrittenStart(images);
      done := res.InsertFill(0, FILE_HEADER_SIZE, 2 * |images|);
      for i := 0 to |images|
        invariant res.Valid() && !res.frozen && fresh(res) && (res.alloc == null || fresh(res.alloc))
        invariant res.Contents() == Written(images, i)
      {
        WriteSection(res, i);
      }
      WrittenEnd(images);
    }

    /** One section behind the others, its place in the file into the pointer table. */
    method WriteSection(res: ByteBuffer, i: nat)
      requires i < |images| && res.Valid() && !res.frozen && res.Contents() == Written(images, i)
      modifies res, res.alloc
      ensures res.Valid() && !res.frozen && (res.alloc == old(res.alloc) || fresh(res.alloc))
      ensures res.Contents() == Written(images, i + 1)
    {
      hide *;
      WrittenSize(images, i, res);
      var offset := res.size;
      WrittenStep(images, i);
      var done := res.InsertRange([Lo(Wrap(offset)), Hi(Wrap(offset))], FILE_HEADER_SIZE + 2 * i);
      done := res.AppendRange(images[i]);
    }
  }

  lemma HeaderFirst(n: nat)
    ensures [] + FileHeader(n) == FileHeader(n)
  {
  }

  // Readers ----------------------------------------------------------------------------

  /** The first record with that id, searched one by one. */
  method StringRecordById(base: Bytes, table: int, n: nat, id: u16) returns (addr: Option<u16>)
    ensures addr == FindString(base, table, n, id, 0)
  {
    for i := 0 to n
      invariant FindString(base, table, n, id, 0) == FindString(base, table, n, id, i)
    {
      var p := PairAt(base, table, i);
      if p.None? {
        return None;
      }
      if p.value.id == id {
        return Some(p.value.addr);
      }
    }
    addr := None;
  }

  /** A table, entry by entry. */
  method ReadEntries(base: Bytes, count: nat, addr: nat) returns (es: Option<seq<Entry>>)
    ensures es == ReadTable(base, count, addr)
  {
    var n, table := Field(base, count), Field(base, addr);
    if n.None? || table.None? {
      return None;
    }
    var acc: seq<Entry> := [];
    for i := 0 to n.value
      invariant ReadFirst(base, table.value, i) == Some(acc)
    {
      var e := EntryAt(base, table.value, i);
      if e.None? {
        ReadStops(base, table.value, i + 1, n.value);
        return None;
      }
      acc := acc + [e.value];
    }
    es := Some(acc);
  }

  lemma {:induction false} ReadStops(base: Bytes, table: int, m: nat, n: nat)
    requires m <= n && ReadFirst(base, table, m).None?
    ensures ReadFirst(base, table, n).None?
  {
    hide EntryAt;
    if m < n {
      ReadStops(base, table, m, n - 1);
    }
  }
}
