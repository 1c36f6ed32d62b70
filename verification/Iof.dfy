/**
 The object format: how a section with its symbols, links, exports and strings becomes
 bytes, and how the linker reads them back.
 */
module Iof {
  import opened Words

  type Bytes = seq<u8>

  /** A record of two words: string id and address. */
  datatype Pair = Pair(id: u16, addr: u16)

  /** A named address. */
  datatype Entry = Entry(name: Bytes, addr: u16)

  // Words and tables -------------------------------------------------------------------

  /** Words in memory order. */
  function WordBytes(ws: seq<u16>): (r: Bytes)
    ensures |r| == 2 * |ws|
    ensures forall j :: 0 <= j < |ws| ==> r[2 * j] == Lo(ws[j]) && r[2 * j + 1] == Hi(ws[j])
  {
    seq(2 * |ws|, k requires 0 <= k < 2 * |ws| => if k % 2 == 0 then Lo(ws[k / 2]) else Hi(ws[k / 2]))
  }

  /** A table of records as words. */
  function Flat(ps: seq<Pair>): (r: seq<u16>)
    ensures |r| == 2 * |ps|
    ensures forall j :: 0 <= j < |ps| ==> r[2 * j] == ps[j].id && r[2 * j + 1] == ps[j].addr
  {
    seq(2 * |ps|, k requires 0 <= k < 2 * |ps| => if k % 2 == 0 then ps[k / 2].id else ps[k / 2].addr)
  }

  /** Strings one after the other, each with its terminating zero. */
  function Texts(strings: seq<Bytes>): Bytes {
    if strings == [] then [] else strings[0] + [0] + Texts(strings[1..])
  }

  // The builder ------------------------------------------------------------------------

  /** String i of the builder has id i. */
  datatype Builder = Builder(flag: u16, origin: u16, originSet: bool, code: Bytes, name: Bytes,
                             strings: seq<Bytes>, symbols: seq<Pair>, links: seq<Pair>, exports: seq<Pair>)

  const STATIC_ORIGIN: u16 := 1

  function IndexOf(strings: seq<Bytes>, s: Bytes): (r: nat)
    ensures r <= |strings| && (r < |strings| ==> strings[r] == s)
    ensures forall j :: 0 <= j < r ==> strings[j] != s
  {
    if strings == [] || strings[0] == s then 0 else 1 + IndexOf(strings[1..], s)
  }

  /** The id of a string: that of its first occurrence, or the next free one. */
  function StringId(strings: seq<Bytes>, s: Bytes): u16 {
    Wrap(IndexOf(strings, s))
  }

  function WithString(strings: seq<Bytes>, s: Bytes): seq<Bytes> {
    if IndexOf(strings, s) < |strings| then strings else strings + [s]
  }

  datatype Op = SymbolOp(e: Entry) | LinkOp(e: Entry) | ExportOp(e: Entry)

  function Add(b: Builder, op: Op): Builder {
    var p := Pair(StringId(b.strings, op.e.name), op.e.addr);
    var c := b.(strings := WithString(b.strings, op.e.name));
    match op
    case SymbolOp(_) => c.(symbols := b.symbols + [p])
    case LinkOp(_) => c.(links := b.links + [p])
    case ExportOp(_) => c.(exports := b.exports + [p])
  }

  function AddAll(b: Builder, ops: seq<Op>): Builder {
    if ops == [] then b else Add(AddAll(b, ops[..|ops| - 1]), ops[|ops| - 1])
  }

  /** The code that is stored: without the padding before the origin. */
  function StoredCode(b: Builder): Bytes {
    if !b.originSet then b.code
    else if b.origin < |b.code| then b.code[b.origin..]
    else []
  }

  /** What is written as the code's size. */
  function CodeSize(b: Builder): int {
    if b.originSet then |b.code| - b.origin else |b.code|
  }

  /** Building throws when the origin lies at or behind the end of code there is. */
  predicate Builds(b: Builder) {
    b.originSet ==> b.origin < |b.code| || b.code == []
  }

  // Layout -----------------------------------------------------------------------------

  const HEADER_SIZE: nat := 28

  function SymbolsAt(b: Builder): nat { HEADER_SIZE + |StoredCode(b)| }
  function LinksAt(b: Builder): nat { SymbolsAt(b) + 4 * |b.symbols| }
  function ExportsAt(b: Builder): nat { LinksAt(b) + 4 * |b.links| }
  function NameAt(b: Builder): nat { ExportsAt(b) + 4 * |b.exports| }
  function StringsAt(b: Builder): nat { NameAt(b) + |b.name| + 1 }
  function TextsAt(b: Builder): nat { StringsAt(b) + 4 * |b.strings| }

  /** The record of string i: its id and where its bytes begin. */
  function StringPairs(b: Builder): (r: seq<Pair>)
    ensures |r| == |b.strings|
    ensures forall i :: 0 <= i < |r| ==> r[i] == Pair(Wrap(i), Wrap(TextsAt(b) + |Texts(b.strings[..i])|))
  {
    seq(|b.strings|, i requires 0 <= i < |b.strings| => Pair(Wrap(i), Wrap(TextsAt(b) + |Texts(b.strings[..i])|)))
  }

  const FLAG: nat := 0
  const ORIGIN: nat := 1
  const CODE_SIZE: nat := 2
  const CODE_ADDR: nat := 3
  const LINKS_COUNT: nat := 4
  const LINKS_ADDR: nat := 5
  const SYMBOLS_COUNT: nat := 6
  const SYMBOLS_ADDR: nat := 7
  const EXPORTS_COUNT: nat := 8
  const EXPORTS_ADDR: nat := 9
  const STRINGS_COUNT: nat := 10
  const STRINGS_ADDR: nat := 11
  const NAME_SIZE: nat := 12
  const NAME_ADDR: nat := 13

  function HeaderWords(b: Builder): (r: seq<u16>)
    ensures |r| == 14
  {
    [b.flag, b.origin, Wrap(CodeSize(b)), Wrap(HEADER_SIZE),
     Wrap(|b.links|), Wrap(LinksAt(b)), Wrap(|b.symbols|), Wrap(SymbolsAt(b)),
     Wrap(|b.exports|), Wrap(ExportsAt(b)), Wrap(|b.strings|), Wrap(StringsAt(b)),
     Wrap(|b.name|), Wrap(NameAt(b))]
  }

  /** Everything in front of the strings' own bytes. */
  function Front(b: Builder): (r: Bytes)
    ensures |r| == TextsAt(b)
  {
    WordBytes(HeaderWords(b)) + StoredCode(b) + WordBytes(Flat(b.symbols)) + WordBytes(Flat(b.links)) +
    WordBytes(Flat(b.exports)) + (b.name + [0]) + WordBytes(Flat(StringPairs(b)))
  }

  function Build(b: Builder): Bytes {
    Front(b) + Texts(b.strings)
  }

  // Reading ------------------------------------------------------------------------------

  /** `None`: outside the file. */
  function WordAt(base: Bytes, a: int): Option<u16> {
    if 0 <= a && a + 1 < |base| then Some(Word(base[a], base[a + 1])) else None
  }

  function PairAt(base: Bytes, table: int, i: nat): Option<Pair> {
    match (WordAt(base, table + 4 * i), WordAt(base, table + 4 * i + 2))
    case (Some(id), Some(addr)) => Some(Pair(id, addr))
    case _ => None
  }

  function Field(base: Bytes, k: nat): Option<u16> {
    WordAt(base, 2 * k)
  }

  /** The address of the first string record with that id, from record i on. */
  function FindString(base: Bytes, table: int, n: nat, id: u16, i: nat): Option<u16>
    decreases n - i
  {
    if i >= n then None
    else
      match PairAt(base, table, i)
      case None => None
      case Some(p) => if p.id == id then Some(p.addr) else FindString(base, table, n, id, i + 1)
  }

  /** The bytes up to the next zero. */
  function CString(base: Bytes, a: int): Option<Bytes>
    decreases |base| - a
  {
    if a < 0 || a >= |base| then None
    else if base[a] == 0 then Some([])
    else
      match CString(base, a + 1)
      case Some(t) => Some([base[a]] + t)
      case None => None
  }

  function StringById(base: Bytes, id: u16): Option<Bytes> {
    match (Field(base, STRINGS_COUNT), Field(base, STRINGS_ADDR))
    case (Some(n), Some(table)) =>
      (match FindString(base, table, n, id, 0)
       case Some(a) => CString(base, a)
       case None => None)
    case _ => None
  }

  function EntryAt(base: Bytes, table: int, i: nat): Option<Entry> {
    match PairAt(base, table, i)
    case None => None
    case Some(p) =>
      match StringById(base, p.id)
      case Some(name) => Some(Entry(name, p.addr))
      case None => None
  }

  function ReadFirst(base: Bytes, table: int, n: nat): Option<seq<Entry>> {
    if n == 0 then Some([])
    else
      match (ReadFirst(base, table, n - 1), EntryAt(base, table, n - 1))
      case (Some(es), Some(e)) => Some(es + [e])
      case _ => None
  }

  /** All entries of a table, given by its count and address fields. */
  function ReadTable(base: Bytes, count: nat, addr: nat): Option<seq<Entry>> {
    match (Field(base, count), Field(base, addr))
    case (Some(n), Some(table)) => ReadFirst(base, table, n)
    case _ => None
  }

  function ReadCode(base: Bytes): Option<Bytes> {
    match (Field(base, CODE_SIZE), Field(base, CODE_ADDR))
    case (Some(n), Some(a)) => if a + n <= |base| then Some(base[a..a + n]) else None
    case _ => None
  }

  function ReadName(base: Bytes): Option<Bytes> {
    match Field(base, NAME_ADDR)
    case Some(a) => CString(base, a)
    case None => None
  }

  // The round trip -----------------------------------------------------------------------

  predicate NoNul(s: Bytes) {
    forall i :: 0 <= i < |s| ==> s[i] != 0
  }

  /** A part of the image, found at its offset in everything that begins with the image. */
  lemma PartOf(pre: Bytes, part: Bytes, post: Bytes, base: Bytes)
    requires pre + part + post <= base
    ensures |pre| + |part| <= |base| && base[|pre|..|pre| + |part|] == part
  {
    var all := pre + part + post;
    assert base[..|all|] == all;
    assert base[|pre|..|pre| + |part|] == all[|pre|..|pre| + |part|];
  }

  /** A slice of a slice. */
  lemma SubSlice(base: Bytes, at: nat, n: nat, lo: nat, hi: nat)
    requires at + n <= |base| && lo <= hi <= n
    ensures base[at + lo..at + hi] == base[at..at + n][lo..hi]
    ensures lo < n ==> base[at + lo] == base[at..at + n][lo]
  {
    var x, y := base[at + lo..at + hi], base[at..at + n][lo..hi];
    assert |x| == |y|;
    forall k | 0 <= k < |x| ensures x[k] == y[k] {
    }
  }

  lemma WordInPart(base: Bytes, at: nat, ws: seq<u16>, j: nat)
    requires at + 2 * |ws| <= |base| && base[at..at + 2 * |ws|] == WordBytes(ws) && j < |ws|
    ensures WordAt(base, at + 2 * j) == Some(ws[j])
  {
    hide WordBytes;
    SubSlice(base, at, 2 * |ws|, 2 * j, 2 * j);
    SubSlice(base, at, 2 * |ws|, 2 * j + 1, 2 * j + 1);
    var a := at + 2 * j;
    assert base[a] == WordBytes(ws)[2 * j] == Lo(ws[j]);
    assert base[a + 1] == base[at + (2 * j + 1)] == WordBytes(ws)[2 * j + 1] == Hi(ws[j]);
    assert Word(Lo(ws[j]), Hi(ws[j])) == ws[j];
  }

  lemma PairInPart(base: Bytes, at: nat, ps: seq<Pair>, i: nat)
    requires at + 4 * |ps| <= |base| && base[at..at + 4 * |ps|] == WordBytes(Flat(ps)) && i < |ps|
    ensures PairAt(base, at, i) == Some(ps[i])
  {
    hide WordBytes, Flat, WordAt;
    WordInPart(base, at, Flat(ps), 2 * i);
    WordInPart(base, at, Flat(ps), 2 * i + 1);
    assert at + 2 * (2 * i) == at + 4 * i && at + 2 * (2 * i + 1) == at + 4 * i + 2;
  }

  /** The image lies at the start of `base` and its addresses fit 16 bits. */
  ghost predicate Holds(b: Builder, base: Bytes) {
    Build(b) <= base && |Build(b)| < 0x1_0000
  }

  lemma FrontInBase(b: Builder, base: Bytes)
    requires Holds(b, base)
    ensures Front(b) <= base && |Front(b)| == TextsAt(b) <= |base|
    ensures TextsAt(b) + |Texts(b.strings)| <= |base|
    ensures base[TextsAt(b)..TextsAt(b) + |Texts(b.strings)|] == Texts(b.strings)
    ensures TextsAt(b) + |Texts(b.strings)| < 0x1_0000
  {
    hide Front, Texts;
    PartOf([], Front(b), Texts(b.strings), base);
    assert [] + Front(b) + Texts(b.strings) == Build(b);
    PartOf(Front(b), Texts(b.strings), [], base);
    assert Front(b) + Texts(b.strings) + [] == Build(b);
  }

  /** The part stands in `base` at that offset. */
  ghost predicate At(base: Bytes, at: nat, part: Bytes) {
    at + |part| <= |base| && base[at..at + |part|] == part
  }

  /** Each part of the front at its place. */
  lemma Places(b: Builder, base: Bytes)
    requires Holds(b, base)
    ensures TextsAt(b) <= |base| && TextsAt(b) < 0x1_0000
    ensures At(base, 0, WordBytes(HeaderWords(b)))
    ensures At(base, HEADER_SIZE, StoredCode(b))
    ensures At(base, SymbolsAt(b), WordBytes(Flat(b.symbols)))
    ensures At(base, LinksAt(b), WordBytes(Flat(b.links)))
    ensures At(base, ExportsAt(b), WordBytes(Flat(b.exports)))
    ensures At(base, NameAt(b), b.name + [0])
    ensures At(base, StringsAt(b), WordBytes(Flat(StringPairs(b))))
  {
    hide *;
    FrontInBase(b, base);
    FrontIs(b);
    SevenParts(WordBytes(HeaderWords(b)), StoredCode(b), WordBytes(Flat(b.symbols)), WordBytes(Flat(b.links)),
               WordBytes(Flat(b.exports)), b.name + [0], WordBytes(Flat(StringPairs(b))), base);
    Offsets(b);
  }

  lemma FrontIs(b: Builder)
    ensures Front(b) == WordBytes(HeaderWords(b)) + StoredCode(b) + WordBytes(Flat(b.symbols)) + WordBytes(Flat(b.links)) +
                        WordBytes(Flat(b.exports)) + (b.name + [0]) + WordBytes(Flat(StringPairs(b)))
  {
  }

  lemma Offsets(b: Builder)
    ensures |WordBytes(HeaderWords(b))| == HEADER_SIZE
    ensures HEADER_SIZE + |StoredCode(b)| == SymbolsAt(b)
    ensures SymbolsAt(b) + |WordBytes(Flat(b.symbols))| == LinksAt(b)
    ensures LinksAt(b) + |WordBytes(Flat(b.links))| == ExportsAt(b)
    ensures ExportsAt(b) + |WordBytes(Flat(b.exports))| == NameAt(b)
    ensures NameAt(b) + |b.name + [0]| == StringsAt(b)
  {
    TableSize(b.symbols);
    TableSize(b.links);
    TableSize(b.exports);
  }

  lemma TableSize(ps: seq<Pair>)
    ensures |WordBytes(Flat(ps))| == 4 * |ps|
  {
  }

  lemma TwoParts(base: Bytes, at: nat, x: Bytes, y: Bytes)
    requires At(base, at, x + y)
    ensures At(base, at, x) && At(base, at + |x|, y)
  {
    SubSlice(base, at, |x + y|, 0, |x|);
    SubSlice(base, at, |x + y|, |x|, |x + y|);
  }

  lemma AtStart(base: Bytes, x: Bytes)
    requires x <= base
    ensures At(base, 0, x)
  {
  }

  lemma SevenParts(H: Bytes, C: Bytes, S: Bytes, L: Bytes, E: Bytes, N: Bytes, T: Bytes, base: Bytes)
    requires H + C + S + L + E + N + T <= base
    ensures var c := |H|; var s := c + |C|; var l := s + |S|; var e := l + |L|; var n := e + |E|; var t := n + |N|;
            && At(base, 0, H) && At(base, c, C) && At(base, s, S) && At(base, l, L) && At(base, e, E)
            && At(base, n, N) && At(base, t, T)
  {
    hide At;
    AtStart(base, H + C + S + L + E + N + T);
    TwoParts(base, 0, H + C + S + L + E + N, T);
    TwoParts(base, 0, H + C + S + L + E, N);
    TwoParts(base, 0, H + C + S + L, E);
    TwoParts(base, 0, H + C + S, L);
    TwoParts(base, 0, H + C, S);
    TwoParts(base, 0, H, C);
  }

  lemma FieldRead(b: Builder, base: Bytes, k: nat)
    requires Holds(b, base) && k < 14
    ensures Field(base, k) == Some(HeaderWords(b)[k])
  {
    hide HeaderWords, WordBytes, Build;
    Places(b, base);
    WordInPart(base, 0, HeaderWords(b), k);
  }

  // Strings --------------------------------------------------------------------------------

  lemma {:induction false} CStringAt(base: Bytes, a: nat, s: Bytes)
    requires NoNul(s) && a + |s| < |base| && base[a..a + |s|] == s && base[a + |s|] == 0
    ensures CString(base, a) == Some(s)
    decreases |s|
  {
    if s != [] {
      assert base[a] == s[0];
      SubSlice(base, a, |s|, 1, |s|);
      CStringAt(base, a + 1, s[1..]);
      assert s == [s[0]] + s[1..];
    }
  }

  lemma {:induction false} TextsSplit(strings: seq<Bytes>, i: nat)
    requires i < |strings|
    ensures Texts(strings) == Texts(strings[..i]) + (strings[i] + [0]) + Texts(strings[i + 1..])
    decreases |strings|
  {
    if i == 0 {
      assert strings[..0] == [] && Texts([]) == [];
    } else {
      TextsSplit(strings[1..], i - 1);
      assert strings[1..][..i - 1] == strings[..i][1..] && strings[1..][i..] == strings[i + 1..];
    }
  }

  lemma StringInBase(b: Builder, base: Bytes, i: nat)
    requires Holds(b, base) && i < |b.strings| && NoNul(b.strings[i])
    ensures TextsAt(b) + |Texts(b.strings[..i])| < 0x1_0000
    ensures CString(base, TextsAt(b) + |Texts(b.strings[..i])|) == Some(b.strings[i])
  {
    hide Front, Texts, Build, CString;
    FrontInBase(b, base);
    TextsSplit(b.strings, i);
    var s, before, at := b.strings[i], Texts(b.strings[..i]), TextsAt(b) + |Texts(b.strings[..i])|;
    var n := |Texts(b.strings)|;
    PartOf(before, s + [0], Texts(b.strings[i + 1..]), Texts(b.strings));
    SubSlice(base, TextsAt(b), n, |before|, |before| + |s| + 1);
    SubSlice(base, at, |s| + 1, 0, |s|);
    SubSlice(base, at, |s| + 1, |s|, |s|);
    CStringAt(base, at, s);
  }

  lemma SmallWrap(n: nat)
    requires n < 0x1_0000
    ensures Wrap(n) == n
  {
  }

  lemma FindStep(base: Bytes, table: int, n: nat, id: u16, i: nat, p: Pair)
    requires i < n && PairAt(base, table, i) == Some(p)
    ensures FindString(base, table, n, id, i) == if p.id == id then Some(p.addr) else FindString(base, table, n, id, i + 1)
  {
    hide PairAt;
  }

  lemma {:induction false} FindStringRead(b: Builder, base: Bytes, k: nat, i: nat)
    requires Holds(b, base) && i <= k < |b.strings| && |b.strings| < 0x1_0000
    ensures FindString(base, StringsAt(b), |b.strings|, Wrap(k), i) ==
            Some(Wrap(TextsAt(b) + |Texts(b.strings[..k])|))
    decreases k - i
  {
    hide *;
    StringTable(b, base);
    PairInPart(base, StringsAt(b), StringPairs(b), i);
    var p := StringPairs(b)[i];
    assert p == Pair(Wrap(i), Wrap(TextsAt(b) + |Texts(b.strings[..i])|));
    SmallWrap(i);
    SmallWrap(k);
    FindStep(base, StringsAt(b), |b.strings|, Wrap(k), i, p);
    if i < k {
      FindStringRead(b, base, k, i + 1);
    }
  }

  lemma StringTable(b: Builder, base: Bytes)
    requires Holds(b, base)
    ensures StringsAt(b) + 4 * |StringPairs(b)| <= |base|
    ensures base[StringsAt(b)..StringsAt(b) + 4 * |StringPairs(b)|] == WordBytes(Flat(StringPairs(b)))
    ensures |b.strings| < 0x1_0000 && StringsAt(b) < 0x1_0000
  {
    hide Build;
    Places(b, base);
  }

  lemma StringByIdIs(base: Bytes, id: u16, n: u16, table: u16, a: u16)
    requires Field(base, STRINGS_COUNT) == Some(n) && Field(base, STRINGS_ADDR) == Some(table)
    requires FindString(base, table, n, id, 0) == Some(a)
    ensures StringById(base, id) == CString(base, a)
  {
    hide Field, FindString, CString;
  }

  lemma StringRead(b: Builder, base: Bytes, k: nat)
    requires Holds(b, base) && k < |b.strings| && NoNul(b.strings[k])
    ensures StringById(base, Wrap(k)) == Some(b.strings[k])
  {
    hide *;
    StringTable(b, base);
    StringsFields(b, base);
    FindStringRead(b, base, k, 0);
    StringInBase(b, base, k);
    SmallWrap(|b.strings|);
    SmallWrap(StringsAt(b));
    SmallWrap(TextsAt(b) + |Texts(b.strings[..k])|);
    StringByIdIs(base, Wrap(k), Wrap(|b.strings|), Wrap(StringsAt(b)), Wrap(TextsAt(b) + |Texts(b.strings[..k])|));
  }

  lemma StringsFields(b: Builder, base: Bytes)
    requires Holds(b, base)
    ensures Field(base, STRINGS_COUNT) == Some(Wrap(|b.strings|))
    ensures Field(base, STRINGS_ADDR) == Some(Wrap(StringsAt(b)))
  {
    hide Build;
    FieldRead(b, base, STRINGS_COUNT);
    FieldRead(b, base, STRINGS_ADDR);
  }

  // Tables ---------------------------------------------------------------------------------

  /** Ids name strings of the builder, none of which contains a zero. */
  ghost predicate GoodPairs(b: Builder, ps: seq<Pair>) {
    && (forall i :: 0 <= i < |ps| ==> ps[i].id < |b.strings|)
    && forall i :: 0 <= i < |b.strings| ==> NoNul(b.strings[i])
  }

  function EntriesOf(b: Builder, ps: seq<Pair>): (r: seq<Entry>)
    ensures |r| == |ps|
    ensures forall i :: 0 <= i < |ps| && ps[i].id < |b.strings| ==> r[i] == Entry(b.strings[ps[i].id], ps[i].addr)
  {
    seq(|ps|, i requires 0 <= i < |ps| =>
      Entry(if ps[i].id < |b.strings| then b.strings[ps[i].id] else [], ps[i].addr))
  }

  lemma {:induction false} FirstRead(b: Builder, base: Bytes, table: nat, ps: seq<Pair>, n: nat)
    requires Holds(b, base) && GoodPairs(b, ps) && n <= |ps|
    requires table + 4 * |ps| <= |base| && base[table..table + 4 * |ps|] == WordBytes(Flat(ps))
    ensures ReadFirst(base, table, n) == Some(EntriesOf(b, ps)[..n])
  {
    hide WordBytes, Flat, Build, StringById, Holds, PairAt;
    if n > 0 {
      FirstRead(b, base, table, ps, n - 1);
      PairInPart(base, table, ps, n - 1);
      var p := ps[n - 1];
      assert Wrap(p.id) == p.id;
      StringRead(b, base, p.id);
      assert EntryAt(base, table, n - 1) == Some(EntriesOf(b, ps)[n - 1]);
      assert EntriesOf(b, ps)[..n] == EntriesOf(b, ps)[..n - 1] + [EntriesOf(b, ps)[n - 1]];
    }
  }

  /** A table whose address and count fit comes back entry by entry. */
  lemma TableRead(b: Builder, base: Bytes, ps: seq<Pair>, table: nat, count: nat, addr: nat)
    requires Holds(b, base) && GoodPairs(b, ps)
    requires table + 4 * |ps| <= |base| && base[table..table + 4 * |ps|] == WordBytes(Flat(ps))
    requires table < 0x1_0000 && |ps| < 0x1_0000
    requires Field(base, count) == Some(Wrap(|ps|)) && Field(base, addr) == Some(Wrap(table))
    ensures ReadTable(base, count, addr) == Some(EntriesOf(b, ps))
  {
    hide WordBytes, Flat, Holds, Field, ReadFirst, GoodPairs;
    FirstRead(b, base, table, ps, |ps|);
    hide EntriesOf;
    assert Wrap(|ps|) == |ps| && Wrap(table) == table;
    assert EntriesOf(b, ps)[..|ps|] == EntriesOf(b, ps);
  }

  // Runs of the builder ----------------------------------------------------------------------

  function SymbolsOf(ops: seq<Op>): seq<Entry> {
    if ops == [] then []
    else SymbolsOf(ops[..|ops| - 1]) + (if ops[|ops| - 1].SymbolOp? then [ops[|ops| - 1].e] else [])
  }

  function LinksOf(ops: seq<Op>): seq<Entry> {
    if ops == [] then []
    else LinksOf(ops[..|ops| - 1]) + (if ops[|ops| - 1].LinkOp? then [ops[|ops| - 1].e] else [])
  }

  function ExportsOf(ops: seq<Op>): seq<Entry> {
    if ops == [] then []
    else ExportsOf(ops[..|ops| - 1]) + (if ops[|ops| - 1].ExportOp? then [ops[|ops| - 1].e] else [])
  }

  /** A builder that has been given code and a name, and nothing else yet. */
  predicate Empty(b: Builder) {
    b.strings == [] && b.symbols == [] && b.links == [] && b.exports == []
  }

  predicate NamesFit(ops: seq<Op>) {
    forall i :: 0 <= i < |ops| ==> NoNul(ops[i].e.name)
  }

  /** What the builder keeps: every record names the string it was given. */
  ghost predicate Keeps(b: Builder, ops: seq<Op>) {
    && GoodPairs(b, b.symbols) && GoodPairs(b, b.links) && GoodPairs(b, b.exports)
    && EntriesOf(b, b.symbols) == SymbolsOf(ops)
    && EntriesOf(b, b.links) == LinksOf(ops)
    && EntriesOf(b, b.exports) == ExportsOf(ops)
  }

  lemma OldEntries(b: Builder, s: Bytes, ps: seq<Pair>)
    requires GoodPairs(b, ps) && NoNul(s)
    ensures var c := b.(strings := WithString(b.strings, s));
            GoodPairs(c, ps) && EntriesOf(c, ps) == EntriesOf(b, ps)
  {
    var c := b.(strings := WithString(b.strings, s));
    assert forall i :: 0 <= i < |b.strings| ==> c.strings[i] == b.strings[i];
  }

  lemma NewEntry(b: Builder, e: Entry, ps: seq<Pair>)
    requires GoodPairs(b, ps) && NoNul(e.name) && |WithString(b.strings, e.name)| <= 0x1_0000
    ensures var c := b.(strings := WithString(b.strings, e.name));
            var qs := ps + [Pair(StringId(b.strings, e.name), e.addr)];
            GoodPairs(c, qs) && EntriesOf(c, qs) == EntriesOf(b, ps) + [e]
  {
    OldEntries(b, e.name, ps);
  }

  lemma StepKeeps(a: Builder, before: seq<Op>, op: Op)
    requires Keeps(a, before) && NoNul(op.e.name) && |WithString(a.strings, op.e.name)| <= 0x1_0000
    ensures Keeps(Add(a, op), before + [op])
  {
    hide GoodPairs, EntriesOf, StringId, WithString;
    assert (before + [op])[..|before|] == before;
    SameStrings(a, op);
    OldEntries(a, op.e.name, a.symbols);
    OldEntries(a, op.e.name, a.links);
    OldEntries(a, op.e.name, a.exports);
    match op
    case SymbolOp(e) => NewEntry(a, e, a.symbols);
    case LinkOp(e) => NewEntry(a, e, a.links);
    case ExportOp(e) => NewEntry(a, e, a.exports);
  }

  lemma {:induction false} RunKeeps(b: Builder, ops: seq<Op>)
    requires Empty(b) && NamesFit(ops) && |AddAll(b, ops).strings| <= 0x1_0000
    ensures Keeps(AddAll(b, ops), ops)
    ensures AddAll(b, ops).code == b.code && AddAll(b, ops).name == b.name
    ensures AddAll(b, ops).origin == b.origin && AddAll(b, ops).originSet == b.originSet && AddAll(b, ops).flag == b.flag
  {
    hide GoodPairs, EntriesOf, Keeps;
    if ops == [] {
      NoEntries(b);
    } else {
      var before, op := ops[..|ops| - 1], ops[|ops| - 1];
      RunKeeps(b, before);
      StepKeeps(AddAll(b, before), before, op);
      assert ops == before + [op];
    }
  }

  /** Entries depend on the strings only. */
  lemma SameStrings(a: Builder, op: Op)
    ensures var c := a.(strings := WithString(a.strings, op.e.name));
            forall ps :: EntriesOf(Add(a, op), ps) == EntriesOf(c, ps) && (GoodPairs(Add(a, op), ps) <==> GoodPairs(c, ps))
  {
    var c, d := a.(strings := WithString(a.strings, op.e.name)), Add(a, op);
    assert c.strings == d.strings;
    forall ps ensures EntriesOf(d, ps) == EntriesOf(c, ps) {
      assert forall i :: 0 <= i < |ps| ==> EntriesOf(d, ps)[i] == EntriesOf(c, ps)[i];
    }
  }

  lemma NoEntries(b: Builder)
    requires Empty(b)
    ensures Keeps(b, [])
  {
  }

  lemma TableFields(b: Builder, base: Bytes)
    requires Holds(b, base)
    ensures Field(base, SYMBOLS_COUNT) == Some(Wrap(|b.symbols|)) && Field(base, SYMBOLS_ADDR) == Some(Wrap(SymbolsAt(b)))
    ensures Field(base, LINKS_COUNT) == Some(Wrap(|b.links|)) && Field(base, LINKS_ADDR) == Some(Wrap(LinksAt(b)))
    ensures Field(base, EXPORTS_COUNT) == Some(Wrap(|b.exports|)) && Field(base, EXPORTS_ADDR) == Some(Wrap(ExportsAt(b)))
    ensures Field(base, CODE_SIZE) == Some(Wrap(CodeSize(b))) && Field(base, CODE_ADDR) == Some(HEADER_SIZE as u16)
    ensures Field(base, NAME_ADDR) == Some(Wrap(NameAt(b)))
    ensures Field(base, FLAG) == Some(b.flag) && Field(base, ORIGIN) == Some(b.origin)
  {
    hide Build;
    FieldRead(b, base, SYMBOLS_COUNT);
    FieldRead(b, base, SYMBOLS_ADDR);
    FieldRead(b, base, LINKS_COUNT);
    FieldRead(b, base, LINKS_ADDR);
    FieldRead(b, base, EXPORTS_COUNT);
    FieldRead(b, base, EXPORTS_ADDR);
    FieldRead(b, base, CODE_SIZE);
    FieldRead(b, base, CODE_ADDR);
    FieldRead(b, base, NAME_ADDR);
    FieldRead(b, base, FLAG);
    FieldRead(b, base, ORIGIN);
  }

  /** What a section reads back as. */
  ghost predicate ReadsAs(base: Bytes, b: Builder, ops: seq<Op>) {
    && Field(base, FLAG) == Some(b.flag) && Field(base, ORIGIN) == Some(b.origin)
    && ReadCode(base) == Some(StoredCode(b))
    && ReadName(base) == Some(b.name)
    && ReadTable(base, SYMBOLS_COUNT, SYMBOLS_ADDR) == Some(SymbolsOf(ops))
    && ReadTable(base, LINKS_COUNT, LINKS_ADDR) == Some(LinksOf(ops))
    && ReadTable(base, EXPORTS_COUNT, EXPORTS_ADDR) == Some(ExportsOf(ops))
  }

  lemma KeepsIs(b: Builder, ops: seq<Op>)
    requires Keeps(b, ops)
    ensures GoodPairs(b, b.symbols) && GoodPairs(b, b.links) && GoodPairs(b, b.exports)
    ensures EntriesOf(b, b.symbols) == SymbolsOf(ops) && EntriesOf(b, b.links) == LinksOf(ops)
    ensures EntriesOf(b, b.exports) == ExportsOf(ops)
  {
  }

  /** The tables lie below the strings, so their places and counts fit 16 bits. */
  lemma TablesFit(b: Builder, base: Bytes)
    requires Holds(b, base)
    ensures SymbolsAt(b) < 0x1_0000 && LinksAt(b) < 0x1_0000 && ExportsAt(b) < 0x1_0000
    ensures |b.symbols| < 0x1_0000 && |b.links| < 0x1_0000 && |b.exports| < 0x1_0000
    ensures SymbolsAt(b) + 4 * |b.symbols| <= |base| && LinksAt(b) + 4 * |b.links| <= |base|
    ensures ExportsAt(b) + 4 * |b.exports| <= |base|
  {
    hide Holds, StoredCode;
    Places(b, base);
  }

  lemma TableSlice(base: Bytes, at: nat, ps: seq<Pair>)
    requires At(base, at, WordBytes(Flat(ps)))
    ensures at + 4 * |ps| <= |base| && base[at..at + 4 * |ps|] == WordBytes(Flat(ps))
  {
    hide WordBytes, Flat;
    TableSize(ps);
  }

  lemma TablesRead(b: Builder, ops: seq<Op>, base: Bytes)
    requires Holds(b, base) && Keeps(b, ops)
    ensures ReadTable(base, SYMBOLS_COUNT, SYMBOLS_ADDR) == Some(SymbolsOf(ops))
    ensures ReadTable(base, LINKS_COUNT, LINKS_ADDR) == Some(LinksOf(ops))
    ensures ReadTable(base, EXPORTS_COUNT, EXPORTS_ADDR) == Some(ExportsOf(ops))
  {
    hide *;
    Places(b, base);
    TableFields(b, base);
    TablesFit(b, base);
    KeepsIs(b, ops);
    TableSlice(base, SymbolsAt(b), b.symbols);
    TableSlice(base, LinksAt(b), b.links);
    TableSlice(base, ExportsAt(b), b.exports);
    TableRead(b, base, b.symbols, SymbolsAt(b), SYMBOLS_COUNT, SYMBOLS_ADDR);
    TableRead(b, base, b.links, LinksAt(b), LINKS_COUNT, LINKS_ADDR);
    TableRead(b, base, b.exports, ExportsAt(b), EXPORTS_COUNT, EXPORTS_ADDR);
  }

  lemma NameBytes(b: Builder, base: Bytes)
    requires Holds(b, base)
    ensures NameAt(b) + |b.name| < |base| && NameAt(b) < 0x1_0000
    ensures base[NameAt(b)..NameAt(b) + |b.name|] == b.name && base[NameAt(b) + |b.name|] == 0
  {
    hide WordBytes, Flat, Build, StoredCode, StringPairs, HeaderWords;
    Places(b, base);
    var a, n := NameAt(b), |b.name|;
    SubSlice(base, a, n + 1, 0, n);
    SubSlice(base, a, n + 1, n, n);
  }

  lemma NameRead(b: Builder, base: Bytes)
    requires Holds(b, base) && NoNul(b.name)
    ensures ReadName(base) == Some(b.name)
  {
    hide Holds, Field, CString, NameAt, NoNul;
    NameBytes(b, base);
    TableFields(b, base);
    CStringAt(base, NameAt(b), b.name);
  }

  lemma CodeBytes(b: Builder, base: Bytes)
    requires Holds(b, base)
    ensures SymbolsAt(b) <= |base| && base[HEADER_SIZE..SymbolsAt(b)] == StoredCode(b) && SymbolsAt(b) < 0x1_0000
  {
    hide WordBytes, Flat, Build, StoredCode, StringPairs, HeaderWords;
    Places(b, base);
  }

  /** The code comes back except from a section that is nothing but an origin: the size
      field then wraps around. */
  lemma CodeRead(b: Builder, base: Bytes)
    requires Holds(b, base) && Builds(b)
    ensures ReadCode(base) == Some(StoredCode(b)) <==> (b.originSet && b.code == [] ==> b.origin == 0)
  {
    hide Holds, Field;
    CodeBytes(b, base);
    TableFields(b, base);
  }

  /**
   The round trip of a section: whatever symbols, links and exports a builder was given, in
   whatever order, reading its image gives back the stored code, the name, and each list
   in order with the original names and addresses.
   */
  lemma SectionRoundTrip(b: Builder, ops: seq<Op>, base: Bytes)
    requires Empty(b) && NamesFit(ops) && NoNul(b.name)
    requires b.originSet ==> b.origin < |b.code| || (b.code == [] && b.origin == 0)
    requires Holds(AddAll(b, ops), base)
    ensures ReadsAs(base, AddAll(b, ops), ops)
    ensures StoredCode(AddAll(b, ops)) == StoredCode(b)
  {
    hide Build, Keeps, ReadTable, ReadCode, ReadName, Field, AddAll;
    var c := AddAll(b, ops);
    StringTable(c, base);
    RunKeeps(b, ops);
    TableFields(c, base);
    TablesRead(c, ops, base);
    CodeRead(c, base);
    NameRead(c, base);
  }
}
