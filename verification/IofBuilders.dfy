/**
 The object writer and reader as objects and loops over byte buffers, proved against the
 format functions.
 */
module IofBuilders {
  import opened Words
  import opened ByteBuffers
  import opened Iof

  function PairBytes(p: Pair): (r: Bytes)
    ensures |r| == 4
  {
    [Lo(p.id), Hi(p.id), Lo(p.addr), Hi(p.addr)]
  }

  lemma FlatAdd(ps: seq<Pair>, p: Pair)
    ensures Flat(ps + [p]) == Flat(ps) + [p.id, p.addr]
  {
    var l, r := Flat(ps + [p]), Flat(ps) + [p.id, p.addr];
    forall k | 0 <= k < 2 * |ps| ensures l[k] == r[k] {
      assert (ps + [p])[k / 2] == ps[k / 2];
    }
    assert l[2 * |ps|] == p.id && l[2 * |ps| + 1] == p.addr;
  }

  lemma WordBytesAdd(ws: seq<u16>, w: u16)
    ensures WordBytes(ws + [w]) == WordBytes(ws) + [Lo(w), Hi(w)]
  {
    var l, r := WordBytes(ws + [w]), WordBytes(ws) + [Lo(w), Hi(w)];
    forall k | 0 <= k < 2 * |ws| ensures l[k] == r[k] {
      assert (ws + [w])[k / 2] == ws[k / 2];
    }
    assert (ws + [w])[|ws|] == w;
  }

  lemma FlatSnoc(ps: seq<Pair>, i: nat)
    requires i < |ps|
    ensures WordBytes(Flat(ps[..i + 1])) == WordBytes(Flat(ps[..i])) + PairBytes(ps[i])
  {
    hide Flat, WordBytes;
    var a, p := Flat(ps[..i]), ps[i];
    assert ps[..i + 1] == ps[..i] + [p];
    FlatAdd(ps[..i], p);
    WordBytesAdd(a, p.id);
    WordBytesAdd(a + [p.id], p.addr);
    assert a + [p.id] + [p.addr] == a + [p.id, p.addr];
  }

  lemma FlatNone()
    ensures WordBytes(Flat([])) == []
  {
  }

  lemma {:induction false} TextsSnoc(strings: seq<Bytes>, i: nat)
    requires i < |strings|
    ensures Texts(strings[..i + 1]) == Texts(strings[..i]) + (strings[i] + [0])
  {
    if i == 0 {
      assert strings[..1] == [strings[0]] && strings[..1][1..] == [] && strings[..0] == [];
      assert Texts([]) == [];
    } else {
      assert strings[..i + 1][1..] == strings[1..][..i] && strings[..i][1..] == strings[1..][..i - 1];
      TextsSnoc(strings[1..], i - 1);
    }
  }

  lemma {:induction false} IndexOfFrom(strings: seq<Bytes>, s: Bytes, i: nat)
    requires i <= |strings| && forall j :: 0 <= j < i ==> strings[j] != s
    ensures IndexOf(strings, s) == i + IndexOf(strings[i..], s)
  {
    if i > 0 {
      assert strings[1..][i - 1..] == strings[i..];
      IndexOfFrom(strings[1..], s, i - 1);
    } else {
      assert strings[0..] == strings;
    }
  }

  /** Overwriting in the middle. */
  lemma Overwrite(pre: Bytes, was: Bytes, post: Bytes, now: Bytes)
    requires |was| == |now|
    ensures InsertAt(pre + was + post, now, |pre|) == pre + now + post
  {
  }

  class SectionBuilder {
    var flag: u16
    var origin: u16
    var originSet: bool
    var code: Bytes
    var name: Bytes
    var strings: seq<Bytes>
    var symbols: seq<Pair>
    var links: seq<Pair>
    var exports: seq<Pair>

    function Abs(): Builder
      reads this
    {
      Builder(flag, origin, originSet, code, name, strings, symbols, links, exports)
    }

    /** The flag and origin fields hold anything until they are set. */
    constructor (flag: u16, origin: u16)
      ensures Abs() == Builder(flag, origin, false, [], [], [], [], [], [])
    {
      this.flag, this.origin, originSet := flag, origin, false;
      code, name, strings, symbols, links, exports := [], [], [], [], [], [];
    }

    method SetCode(bytes: Bytes)
      modifies this`code
      ensures Abs() == old(Abs()).(code := bytes)
    {
      code := bytes;
    }

    method SetName(bytes: Bytes)
      modifies this`name
      ensures Abs() == old(Abs()).(name := bytes)
    {
      name := bytes;
    }

    method SetFlag(flags: u16)
      modifies this`flag
      ensures Abs() == old(Abs()).(flag := flags)
    {
      flag := flags;
    }

    method SetOrigin(at: u16)
      modifies this`flag, this`origin, this`originSet
      ensures Abs() == old(Abs()).(origin := at, originSet := true, flag := flag)
      ensures flag % 2 == 1 && flag / 2 == old(flag) / 2
    {
      flag := if flag % 2 == 0 then flag + STATIC_ORIGIN else flag;
      origin := at;
      originSet := true;
    }

    method AddString(s: Bytes) returns (id: u16)
      modifies this`strings
      ensures id == StringId(old(strings), s) && strings == WithString(old(strings), s)
    {
      for i := 0 to |strings|
        invariant strings == old(strings) && forall j :: 0 <= j < i ==> strings[j] != s
      {
        if strings[i] == s {
          IndexOfFrom(strings, s, i);
          return Wrap(i);
        }
      }
      IndexOfFrom(strings, s, |strings|);
      id := Wrap(|strings|);
      strings := strings + [s];
    }

    method AddSymbol(e: Entry)
      modifies this`strings, this`symbols
      ensures Abs() == Add(old(Abs()), SymbolOp(e))
    {
      var id := AddString(e.name);
      symbols := symbols + [Pair(id, e.addr)];
    }

    method AddLink(e: Entry)
      modifies this`strings, this`links
      ensures Abs() == Add(old(Abs()), LinkOp(e))
    {
      var id := AddString(e.name);
      links := links + [Pair(id, e.addr)];
    }

    method AddExport(e: Entry)
      modifies this`strings, this`exports
      ensures Abs() == Add(old(Abs()), ExportOp(e))
    {
      var id := AddString(e.name);
      exports := exports + [Pair(id, e.addr)];
    }

    /** Appends a table, record by record. */
    method AppendPairs(res: ByteBuffer, ps: seq<Pair>)
      requires res.Valid() && !res.frozen
      modifies res, res.alloc
      ensures res.Valid() && !res.frozen && (res.alloc == old(res.alloc) || fresh(res.alloc))
      ensures res.Contents() == old(res.Contents()) + WordBytes(Flat(ps))
    {
      hide *;
      ghost var before := res.Contents();
      FlatNone();
      for i := 0 to |ps|
        invariant res.Valid() && !res.frozen && (res.alloc == old(res.alloc) || fresh(res.alloc))
        invariant res.Contents() == before + WordBytes(Flat(ps[..i]))
      {
        FlatSnoc(ps, i);
        var ok := res.AppendRange(PairBytes(ps[i]));
      }
      assert ps[..|ps|] == ps;
    }

    lemma AbsIs()
      ensures Abs().strings == strings && Abs().symbols == symbols && Abs().links == links && Abs().exports == exports
      ensures Abs().name == name
    {
    }

    /** Header place, code, tables and name; `None` where reading the code range throws. */
    method BuildFront() returns (res: ByteBuffer, ok: bool)
      ensures fresh(res) && res.Valid() && !res.frozen && (res.alloc == null || fresh(res.alloc))
      ensures ok == Builds(Abs())
      ensures ok ==> res.Contents() == WordBytes(BareHeader(Abs())) + UpToName(Abs())
    {
      hide *;
      AbsIs();
      res := new ByteBuffer();
      ok := BuildsIs();
      if !ok {
        return;
      }
      var done := res.AppendRange(WordBytes(BareHeader(Abs())));
      done := res.AppendRange(CodeRange());
      AppendPairs(res, symbols);
      AppendPairs(res, links);
      AppendPairs(res, exports);
      done := res.AppendRange(name);
      done := res.AppendRange([0]);
      FrontParts(Abs());
    }

    /** The stored part of the code. */
    function CodeRange(): Bytes
      reads this
      ensures CodeRange() == StoredCode(Abs())
    {
      if !originSet then code
      else if origin < |code| then code[origin..]
      else []
    }

    method BuildsIs() returns (ok: bool)
      ensures ok == Builds(Abs())
    {
      ok := !originSet || code == [] || origin < |code|;
    }

    /** The string table, and behind it the strings. */
    method BuildStrings(res: ByteBuffer)
      requires res.Valid() && !res.frozen
      requires res.Contents() == WordBytes(BareHeader(Abs())) + UpToName(Abs())
      modifies res, res.alloc
      ensures res.Valid() && !res.frozen && (res.alloc == old(res.alloc) || fresh(res.alloc))
      ensures res.Contents() == Filled(Abs(), |strings|)
    {
      hide *;
      AbsIs();
      StartFilled(Abs());
      ghost var b := Abs();
      var at := res.size;
      FrontSize(b, res);
      var done := res.InsertFill(0, at, 4 * |strings|);
      for i := 0 to |strings|
        invariant res.Valid() && !res.frozen && (res.alloc == old(res.alloc) || fresh(res.alloc))
        invariant Abs() == b && res.Contents() == Filled(b, i)
      {
        FilledSize(b, i, res);
        var addr := res.size;
        FilledStep(b, i);
        done := res.InsertRange(PairBytes(Pair(Wrap(i), Wrap(addr))), at + 4 * i);
        done := res.AppendRange(strings[i]);
        done := res.AppendRange([0]);
      }
    }

    /** The whole image; the header is written last, over the place kept for it. */
    method BuildImage() returns (res: ByteBuffer, ok: bool)
      ensures fresh(res) && res.Valid() && ok == Builds(Abs())
      ensures ok ==> res.Contents() == Build(Abs())
    {
      hide *;
      AbsIs();
      res, ok := BuildFront();
      if !ok {
        return;
      }
      BuildStrings(res);
      HeaderOver(Abs());
      var done := res.InsertRange(WordBytes(HeaderWords(Abs())), 0);
    }
  }

  /** The header before its counts and addresses are known. */
  function BareHeader(b: Builder): (r: seq<u16>)
    ensures |r| == 14
  {
    [b.flag, b.origin, 0, 0, 0, 0, 0, 0, 0, 0, 0, 0, 0, 0]
  }

  function UpToName(b: Builder): Bytes {
    StoredCode(b) + WordBytes(Flat(b.symbols)) + WordBytes(Flat(b.links)) + WordBytes(Flat(b.exports)) + (b.name + [0])
  }

  lemma FrontParts(b: Builder)
    ensures WordBytes(BareHeader(b)) + UpToName(b) ==
            [] + WordBytes(BareHeader(b)) + StoredCode(b) + WordBytes(Flat(b.symbols)) + WordBytes(Flat(b.links)) +
            WordBytes(Flat(b.exports)) + b.name + [0]
  {
    hide WordBytes, Flat, StoredCode, BareHeader;
    var H, C, S := WordBytes(BareHeader(b)), StoredCode(b), WordBytes(Flat(b.symbols));
    var L, E, N := WordBytes(Flat(b.links)), WordBytes(Flat(b.exports)), b.name;
    Assoc(H + C + S + L + E, N, [0]);
    Assoc(H, C + S + L + E, N + [0]);
    Assoc(H, C + S + L, E);
    Assoc(H, C + S, L);
    Assoc(H, C, S);
    assert [] + H == H;
  }

  lemma Assoc<T>(a: seq<T>, b: seq<T>, c: seq<T>)
    ensures a + (b + c) == (a + b) + c
  {
  }

  /** The image without its header, when i strings have been written: their records are
      filled in, those of the others are still zero. */
  function Filled(b: Builder, i: nat): Bytes
    requires i <= |b.strings|
  {
    WordBytes(BareHeader(b)) + UpToName(b) + WordBytes(Flat(StringPairs(b)[..i])) +
    Fill(0, 4 * (|b.strings| - i)) + Texts(b.strings[..i])
  }

  lemma FrontLength(b: Builder)
    ensures |WordBytes(BareHeader(b)) + UpToName(b)| == StringsAt(b)
  {
    hide WordBytes, Flat, StoredCode;
    TableSize(b.symbols);
    TableSize(b.links);
    TableSize(b.exports);
  }

  lemma ContentsSize(res: ByteBuffer)
    requires res.Valid()
    ensures |res.Contents()| == res.size
  {
  }

  lemma FrontSize(b: Builder, res: ByteBuffer)
    requires res.Valid() && res.Contents() == WordBytes(BareHeader(b)) + UpToName(b)
    ensures res.size == StringsAt(b)
  {
    ContentsSize(res);
    FrontLength(b);
  }

  lemma FilledSize(b: Builder, i: nat, res: ByteBuffer)
    requires i < |b.strings| && res.Valid() && res.Contents() == Filled(b, i)
    ensures StringPairs(b)[i] == Pair(Wrap(i), Wrap(res.size))
  {
    hide WordBytes, Flat, UpToName, Texts, BareHeader;
    ContentsSize(res);
    FrontLength(b);
    TableSize(StringPairs(b)[..i]);
  }

  /** Zeros for the table, at the end of what there is. */
  lemma StartFilled(b: Builder)
    ensures var front := WordBytes(BareHeader(b)) + UpToName(b);
            InsertAt(front, Fill(0, 4 * |b.strings|), StringsAt(b)) == Filled(b, 0)
  {
    hide WordBytes, Flat, UpToName, Texts, BareHeader;
    FrontLength(b);
    var front := WordBytes(BareHeader(b)) + UpToName(b);
    InsertAtEnd(front, Fill(0, 4 * |b.strings|));
    NoTexts();
    assert StringPairs(b)[..0] == [] && b.strings[..0] == [];
  }

  lemma NoTexts()
    ensures Texts([]) == [] && WordBytes(Flat([])) == []
  {
  }

  /** Filling in record i and appending string i. */
  lemma FilledStep(b: Builder, i: nat)
    requires i < |b.strings|
    ensures InsertAt(Filled(b, i), PairBytes(StringPairs(b)[i]), StringsAt(b) + 4 * i) + b.strings[i] + [0] == Filled(b, i + 1)
  {
    hide WordBytes, Flat, UpToName, Texts, BareHeader, StringPairs, PairBytes, Fill;
    var pre := WordBytes(BareHeader(b)) + UpToName(b) + WordBytes(Flat(StringPairs(b)[..i]));
    var left := Fill(0, 4 * (|b.strings| - i - 1));
    FrontLength(b);
    TableSize(StringPairs(b)[..i]);
    FillSplit(4 * (|b.strings| - i));
    Assoc(pre, Fill(0, 4), left);
    Assoc(pre + Fill(0, 4), left, Texts(b.strings[..i]));
    Overwrite(pre, Fill(0, 4), left + Texts(b.strings[..i]), PairBytes(StringPairs(b)[i]));
    FlatSnoc(StringPairs(b), i);
    TextsSnoc(b.strings, i);
    Relink(WordBytes(BareHeader(b)) + UpToName(b), WordBytes(Flat(StringPairs(b)[..i])), PairBytes(StringPairs(b)[i]),
           left, Texts(b.strings[..i]), b.strings[i]);
  }

  lemma Relink(front: Bytes, table: Bytes, p: Bytes, left: Bytes, texts: Bytes, s: Bytes)
    ensures front + table + p + (left + texts) + s + [0] == front + (table + p) + left + (texts + (s + [0]))
  {
    Assoc(front, table, p);
    Assoc(front + table + p, left, texts);
    Assoc(front + table + p + left + texts, s, [0]);
    Assoc(front + table + p + left, texts, s + [0]);
  }

  lemma FillSplit(n: nat)
    requires n >= 4
    ensures Fill(0, n) == Fill(0, 4) + Fill(0, n - 4)
  {
  }

  /** Writing the header over its place completes the image. */
  lemma HeaderOver(b: Builder)
    ensures InsertAt(Filled(b, |b.strings|), WordBytes(HeaderWords(b)), 0) == Build(b)
  {
    hide WordBytes, Flat, StoredCode, Texts, BareHeader, StringPairs, HeaderWords, InsertAt;
    var T, X := WordBytes(Flat(StringPairs(b))), Texts(b.strings);
    FillNone(b);
    var tail := UpToName(b) + T + X;
    Assoc(WordBytes(BareHeader(b)), UpToName(b), T);
    Assoc(WordBytes(BareHeader(b)), UpToName(b) + T, X);
    assert Filled(b, |b.strings|) == WordBytes(BareHeader(b)) + tail;
    Overwrite([], WordBytes(BareHeader(b)), tail, WordBytes(HeaderWords(b)));
    assert [] + WordBytes(BareHeader(b)) + tail == WordBytes(BareHeader(b)) + tail;
    assert [] + WordBytes(HeaderWords(b)) + tail == WordBytes(HeaderWords(b)) + tail;
    TailIs(b);
  }

  lemma FillNone(b: Builder)
    ensures Filled(b, |b.strings|) == WordBytes(BareHeader(b)) + UpToName(b) + WordBytes(Flat(StringPairs(b))) + Texts(b.strings)
  {
    hide WordBytes, Flat, UpToName, Texts, BareHeader, StringPairs;
    assert Fill(0, 0) == [];
    assert StringPairs(b)[..|b.strings|] == StringPairs(b) && b.strings[..|b.strings|] == b.strings;
    var pre := WordBytes(BareHeader(b)) + UpToName(b) + WordBytes(Flat(StringPairs(b)));
    assert pre + [] == pre;
  }

  lemma TailIs(b: Builder)
    ensures WordBytes(HeaderWords(b)) + (UpToName(b) + WordBytes(Flat(StringPairs(b))) + Texts(b.strings)) == Build(b)
  {
    hide WordBytes, Flat, StoredCode, Texts, StringPairs, HeaderWords;
    var H, C, S := WordBytes(HeaderWords(b)), StoredCode(b), WordBytes(Flat(b.symbols));
    var L, E, N, T := WordBytes(Flat(b.links)), WordBytes(Flat(b.exports)), b.name + [0], WordBytes(Flat(StringPairs(b)));
    Assoc(H, UpToName(b) + T, Texts(b.strings));
    Assoc(H, UpToName(b), T);
    Assoc(H, C + S + L + E, N);
    Assoc(H, C + S + L, E);
    Assoc(H, C + S, L);
    Assoc(H, C, S);
  }
}
