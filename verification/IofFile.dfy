/**
 Object files: a header, a table of section pointers and the sections, and the way the
 linker finds each section again.
 */
module IofFile {
  import opened Words
  import opened Iof

  const FILE_HEADER_SIZE: nat := 16

  const MAGIC: Bytes := [0x49, 0x4f, 0x46, 0x7f]
  const FORMAT: u8 := 2

  function FileHeader(n: nat): (r: Bytes)
    ensures |r| == FILE_HEADER_SIZE
  {
    MAGIC + [FORMAT, 2] + [Lo(Wrap(n)), Hi(Wrap(n)), 16, 0] + [0, 0, 0, 0, 0, 0]
  }

  function Sections(images: seq<Bytes>): Bytes {
    if images == [] then [] else images[0] + Sections(images[1..])
  }

  function SectionsAt(images: seq<Bytes>): nat {
    FILE_HEADER_SIZE + 2 * |images|
  }

  function Pointers(images: seq<Bytes>): (r: seq<u16>)
    ensures |r| == |images|
    ensures forall i :: 0 <= i < |r| ==> r[i] == Wrap(SectionsAt(images) + |Sections(images[..i])|)
  {
    seq(|images|, i requires 0 <= i < |images| => Wrap(SectionsAt(images) + |Sections(images[..i])|))
  }

  function FileBytes(images: seq<Bytes>): Bytes {
    FileHeader(|images|) + WordBytes(Pointers(images)) + Sections(images)
  }

  // Reading ----------------------------------------------------------------------------

  /** The checks the linker makes before it reads on. */
  predicate ValidHeader(file: Bytes) {
    |file| >= FILE_HEADER_SIZE && file[..4] == MAGIC && file[4] == FORMAT
  }

  function SectionCount(file: Bytes): Option<u16> {
    WordAt(file, 6)
  }

  /** What follows the address a section pointer holds. */
  function SectionBase(file: Bytes, i: nat): Option<Bytes> {
    match WordAt(file, 8)
    case None => None
    case Some(table) =>
      match WordAt(file, table + 2 * i)
      case Some(p) => if p <= |file| then Some(file[p..]) else None
      case None => None
  }

  // The round trip -----------------------------------------------------------------------

  lemma {:induction false} SectionsSplit(images: seq<Bytes>, i: nat)
    requires i < |images|
    ensures Sections(images) == Sections(images[..i]) + images[i] + Sections(images[i + 1..])
    decreases |images|
  {
    if i == 0 {
      assert images[..0] == [] && Sections([]) == [];
    } else {
      SectionsSplit(images[1..], i - 1);
      assert images[1..][..i - 1] == images[..i][1..] && images[1..][i..] == images[i + 1..];
    }
  }

  lemma HeaderRead(n: nat, rest: Bytes)
    requires n < 0x1_0000
    ensures var file := FileHeader(n) + rest;
            ValidHeader(file) && SectionCount(file) == Some(n as u16) && WordAt(file, 8) == Some(16)
  {
    var file := FileHeader(n) + rest;
    assert file[..4] == MAGIC;
    assert file[6] == Lo(n) && file[7] == Hi(n) && file[8] == 16 && file[9] == 0;
  }

  lemma PointerRead(images: seq<Bytes>, i: nat)
    requires i < |images|
    ensures WordAt(FileBytes(images), 16 + 2 * i) == Some(Pointers(images)[i])
  {
    hide Sections, FileHeader, WordBytes, Pointers, WordAt;
    var file := FileBytes(images);
    PartOf(FileHeader(|images|), WordBytes(Pointers(images)), Sections(images), file);
    WordInPart(file, 16, Pointers(images), i);
  }

  lemma SectionFound(images: seq<Bytes>, i: nat)
    requires i < |images|
    ensures var at := SectionsAt(images) + |Sections(images[..i])|;
            at <= |FileBytes(images)| && images[i] <= FileBytes(images)[at..]
  {
    hide Sections, FileHeader, WordBytes, Pointers;
    SectionsSplit(images, i);
    var pre := FileHeader(|images|) + WordBytes(Pointers(images)) + Sections(images[..i]);
    var post := Sections(images[i + 1..]);
    assert FileBytes(images) == pre + images[i] + post;
    assert FileBytes(images)[|pre|..] == images[i] + post;
  }

  /** Every section of a file below 64 KiB is found again, at its pointer, in order. */
  lemma FileRoundTrip(images: seq<Bytes>)
    requires |FileBytes(images)| < 0x1_0000
    ensures ValidHeader(FileBytes(images)) && SectionCount(FileBytes(images)) == Some(|images| as u16)
    ensures forall i :: 0 <= i < |images| ==>
              SectionBase(FileBytes(images), i).Some? && images[i] <= SectionBase(FileBytes(images), i).value
  {
    hide Sections, FileHeader, WordBytes, Pointers, WordAt, ValidHeader, SectionCount;
    var file := FileBytes(images);
    assert file == FileHeader(|images|) + (WordBytes(Pointers(images)) + Sections(images));
    HeaderRead(|images|, WordBytes(Pointers(images)) + Sections(images));
    forall i | 0 <= i < |images| ensures SectionBase(file, i).Some? && images[i] <= SectionBase(file, i).value {
      PointerRead(images, i);
      SectionFound(images, i);
    }
  }

  /**
   Builder to linker: every section of an object file reads back as the code, name,
   symbols, links and exports its builder was given.
   */
  lemma ObjectRoundTrip(builders: seq<Builder>, runs: seq<seq<Op>>, images: seq<Bytes>, i: nat)
    requires |builders| == |runs| == |images| && i < |images|
    requires forall j :: 0 <= j < |images| ==> images[j] == Build(AddAll(builders[j], runs[j]))
    requires |FileBytes(images)| < 0x1_0000
    requires Empty(builders[i]) && NamesFit(runs[i]) && NoNul(builders[i].name)
    requires builders[i].originSet ==> builders[i].origin < |builders[i].code| ||
                                       (builders[i].code == [] && builders[i].origin == 0)
    ensures SectionBase(FileBytes(images), i).Some?
    ensures ReadsAs(SectionBase(FileBytes(images), i).value, AddAll(builders[i], runs[i]), runs[i])
    ensures StoredCode(AddAll(builders[i], runs[i])) == StoredCode(builders[i])
  {
    hide Build, AddAll, SectionBase, ReadsAs, FileBytes;
    FileRoundTrip(images);
    ImageFits(images, i);
    SectionRoundTrip(builders[i], runs[i], SectionBase(FileBytes(images), i).value);
  }

  lemma ImageFits(images: seq<Bytes>, i: nat)
    requires i < |images|
    ensures |images[i]| <= |FileBytes(images)|
  {
    hide Pointers, FileHeader;
    SectionsSplit(images, i);
  }
}
