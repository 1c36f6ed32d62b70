/**
 The assembler as an object over a growing byte buffer, proved against the one-pass
 functions.
 */
module Assembler {
  import opened Words
  import Machine
  import opened Images
  import opened Encoding
  import opened ByteBuffers
  import opened Assembly

  /** A name without an address stays without one. */
  lemma {:induction false} PatchFails(code: seq<u8>, links: seq<LinkPoint>, table: seq<LabelDef>, n: nat)
    requires n <= |links| && PatchAll(code, links[..n], table).None?
    ensures PatchAll(code, links, table).None?
    decreases |links|
  {
    if n == |links| {
      assert links[..n] == links;
    } else {
      var shorter := links[..|links| - 1];
      assert shorter[..n] == links[..n];
      PatchFails(code, shorter, table, n);
    }
  }

  /** Moving the first label at an offset, seen from the middle of the list. */
  lemma {:induction false} BumpAt(labels: seq<LabelDef>, i: nat, from: nat, to: nat)
    requires i < |labels| && labels[i].offset == from
    requires forall j :: 0 <= j < i ==> labels[j].offset != from
    ensures Bump(labels, from, to) == labels[i := labels[i].(offset := to)]
  {
    if i > 0 {
      assert labels[1..][i - 1] == labels[i];
      BumpAt(labels[1..], i - 1, from, to);
      assert labels[i := labels[i].(offset := to)] == [labels[0]] + labels[1..][i - 1 := labels[i].(offset := to)];
    }
  }

  lemma PatchNext(code: seq<u8>, links: seq<LinkPoint>, i: nat, table: seq<LabelDef>)
    requires i < |links| && PatchAll(code, links[..i], table).Some?
    ensures PatchAll(code, links[..i + 1], table) ==
            match Lookup(table, links[i].symbol)
            case Some(a) => Some(PatchOne(PatchAll(code, links[..i], table).value, links[i].offset, a))
            case None => None
  {
    hide Lookup, PatchOne;
    assert links[..i + 1][..i] == links[..i] && links[..i + 1][i] == links[i];
  }

  lemma FullPrefix<T>(s: seq<T>)
    ensures s[..|s|] == s
  {
  }

  /** What the step over an instruction does, by the bytes it encodes to. */
  lemma InsStepped(st: Asm, i: Machine.Instr)
    ensures Encode(i, st.values).None? ==> Step1(st, AIns(i)).None?
    ensures Encode(i, st.values).Some? ==>
              var e, p := Encode(i, st.values).value, AlignUp(st.pos);
              Step1(st, AIns(i)) ==
              if e.field > 0 && IsLocal(e.symbol) && st.last == "" then None
              else Some(st.(code := InsertAt(st.code, e.Bytes(), p), pos := p + 4,
                            labels := if st.pos % 4 != 0 then Bump(st.labels, st.pos, p) else st.labels,
                            links := if e.field > 0 then st.links + [LinkPoint(Qualify(st.last, e.symbol), st.pos + e.field)]
                                     else st.links))
  {
    hide Encode, InsertAt, Bump, Qualify, IsLocal;
    assert st.links + [] == st.links;
  }

  class AsmState {
    const code: ByteBuffer
    var pos: nat
    var labels: seq<LabelDef>
    var links: seq<LinkPoint>
    var last: string
    var values: Encoding.Values
    var exports: seq<string>
    var origin: Option<nat>

    ghost predicate Valid()
      reads this, code, code.alloc
    {
      code.Valid() && !code.frozen
    }

    ghost function Abs(): Asm
      requires Valid()
      reads this, code, code.alloc
    {
      Asm(code.Contents(), pos, labels, links, last, values, exports, origin)
    }

    constructor ()
      ensures Valid() && Abs() == START && fresh(code) && code.alloc == null
    {
      code := new ByteBuffer();
      pos, labels, links, last, values, exports, origin := 0, [], [], "", map[], [], None;
    }

    /** Moves the first label that stands at the current position. */
    method AlignLabel(shift: nat)
      modifies this`labels
      ensures labels == Bump(old(labels), pos, pos + shift)
    {
      hide Bump;
      for i := 0 to |labels|
        invariant labels == old(labels)
        invariant forall j :: 0 <= j < i ==> labels[j].offset != pos
      {
        if labels[i].offset == pos {
          BumpAt(labels, i, pos, pos + shift);
          labels := labels[i := labels[i].(offset := labels[i].offset + shift)];
          return;
        }
      }
      BumpNothing(labels, pos, pos + shift);
    }

    method InsertInstruction(bytes: seq<u8>)
      requires Valid() && |bytes| == 4
      modifies this`pos, this`labels, code, code.alloc
      ensures Valid() && (code.alloc == old(code.alloc) || fresh(code.alloc))
      ensures var p := AlignUp(old(pos));
              Abs() == old(Abs()).(code := InsertAt(old(code.Contents()), bytes, p), pos := p + 4,
                                   labels := if old(pos) % 4 != 0 then Bump(old(labels), old(pos), p) else old(labels))
    {
      hide InsertAt, Bump;
      if pos % 4 != 0 {
        var shift := 4 - pos % 4;
        AlignLabel(shift);
        pos := pos + shift;
      }
      var done := code.InsertRange(bytes, pos);
      pos := pos + 4;
    }

    method AddLinkPoint(symbol: string, offset: nat) returns (ok: bool)
      modifies this`links
      ensures ok == !(IsLocal(symbol) && last == "")
      ensures links == if ok then old(links) + [LinkPoint(Qualify(last, symbol), offset)] else old(links)
    {
      if IsLocal(symbol) && last == "" {
        return false;
      }
      links := links + [LinkPoint(Qualify(last, symbol), offset)];
      ok := true;
    }

    ghost predicate Stepped(ok: bool, before: Asm, line: AsmLine)
      reads this, code, code.alloc
      requires Valid()
    {
      ok == Step1(before, line).Some? && (ok ==> Abs() == Step1(before, line).value)
    }

    method ParseInstruction(i: Machine.Instr) returns (ok: bool)
      requires Valid()
      modifies this`pos, this`labels, this`links, code, code.alloc
      ensures Valid() && (code.alloc == old(code.alloc) || fresh(code.alloc))
      ensures Stepped(ok, old(Abs()), AIns(i))
    {
      hide Encode, InsertAt, Bump, AlignUp, Qualify, IsLocal, Step1;
      InsStepped(Abs(), i);
      var e := Encode(i, values);
      if e.None? {
        return false;
      }
      if e.value.field > 0 {
        ok := AddLinkPoint(e.value.symbol, pos + e.value.field);
        if !ok {
          return;
        }
      }
      InsertInstruction(e.value.Bytes());
      ok := true;
    }

    method ParseLabel(name: string) returns (ok: bool)
      requires Valid()
      modifies this`labels, this`last
      ensures Valid() && Stepped(ok, old(Abs()), ALabel(name))
    {
      if name == "" || (IsLocal(name) && last == "") {
        return false;
      }
      for i := 0 to |labels|
        invariant name !in NamesOf(labels)[..i]
      {
        if labels[i].name == name {
          assert NamesOf(labels)[i] == name;
          return false;
        }
      }
      FullPrefix(NamesOf(labels));
      labels := labels + [LabelDef(Qualify(last, name), pos)];
      last := if IsLocal(name) then last else name;
      ok := true;
    }

    method DirectiveOrg(addr: nat) returns (ok: bool)
      requires Valid()
      modifies this`pos, this`origin
      ensures Valid() && Stepped(ok, old(Abs()), AOrg(addr))
    {
      if addr > 0xffff {
        return false;
      }
      pos := addr;
      if origin.None? || origin.value > addr {
        origin := Some(addr);
      }
      ok := true;
    }

    method DirectiveByte(v: int) returns (ok: bool)
      requires Valid()
      modifies this`pos, code, code.alloc
      ensures Valid() && (code.alloc == old(code.alloc) || fresh(code.alloc))
      ensures Stepped(ok, old(Abs()), AByte(v))
    {
      if v > 255 {
        return false;
      }
      ok := code.InsertByte(LoByte(v), pos);
      pos := pos + 1;
    }

    method DirectiveString(bytes: seq<u8>)
      requires Valid()
      modifies this`pos, code, code.alloc
      ensures Valid() && (code.alloc == old(code.alloc) || fresh(code.alloc))
      ensures Stepped(true, old(Abs()), AString(bytes))
    {
      hide InsertAt, Step1;
      StringStep(Abs(), bytes);
      var done := code.InsertRange(bytes, pos);
      pos := pos + |bytes|;
      done := code.InsertByte(0, pos);
      pos := pos + 1;
      TwoInserts(old(code.Contents()), bytes, old(pos));
    }

    method DirectiveResv(n: nat)
      requires Valid()
      modifies this`pos, code, code.alloc
      ensures Valid() && (code.alloc == old(code.alloc) || fresh(code.alloc))
      ensures Stepped(true, old(Abs()), AResv(n))
    {
      var done := code.InsertFill(0, pos, n);
      pos := pos + n;
    }

    method DirectiveValue(name: string, v: int) returns (ok: bool)
      requires Valid()
      modifies this`values
      ensures Valid() && Stepped(ok, old(Abs()), AValue(name, v))
    {
      if v > 0xffff {
        return false;
      }
      if name !in values {
        values := values[name := v];
      }
      ok := true;
    }

    method DirectiveExport(name: string)
      requires Valid()
      modifies this`exports
      ensures Valid() && Stepped(true, old(Abs()), AExport(name))
    {
      exports := exports + [name];
    }

    method ParseLine(line: AsmLine) returns (ok: bool)
      requires Valid()
      modifies this, code, code.alloc
      ensures Valid() && (code.alloc == old(code.alloc) || fresh(code.alloc))
      ensures Stepped(ok, old(Abs()), line)
    {
      hide Step1;
      ok := true;
      match line
      case ALabel(name) => ok := ParseLabel(name);
      case AIns(i) => ok := ParseInstruction(i);
      case AByte(v) => ok := DirectiveByte(v);
      case AString(bytes) => DirectiveString(bytes);
      case AResv(n) => DirectiveResv(n);
      case AOrg(addr) => ok := DirectiveOrg(addr);
      case AValue(name, v) => ok := DirectiveValue(name, v);
      case AExport(name) => DirectiveExport(name);
    }

    method ParseLines(lines: seq<AsmLine>) returns (ok: bool)
      requires Valid()
      modifies this, code, code.alloc
      ensures Valid() && (code.alloc == old(code.alloc) || fresh(code.alloc))
      ensures ok == Run1(old(Abs()), lines).Some?
      ensures ok ==> Abs() == Run1(old(Abs()), lines).value
    {
      hide Step1;
      for i := 0 to |lines|
        invariant Valid() && (code.alloc == old(code.alloc) || fresh(code.alloc))
        invariant Run1(Abs(), lines[i..]) == Run1(old(Abs()), lines)
      {
        assert lines[i..][0] == lines[i] && lines[i..][1..] == lines[i + 1..];
        ok := ParseLine(lines[i]);
        if !ok {
          return;
        }
      }
      ok := true;
    }

    /** Writes the address of the first label of that name over a link point. */
    method Link(point: LinkPoint) returns (ok: bool)
      requires Valid()
      modifies code, code.alloc
      ensures Valid() && (code.alloc == old(code.alloc) || fresh(code.alloc))
      ensures ok == Lookup(labels, point.symbol).Some?
      ensures code.Contents() == if ok then PatchOne(old(code.Contents()), point.offset, Lookup(labels, point.symbol).value)
                                 else old(code.Contents())
    {
      hide InsertAt, LoByte, HiByte;
      for i := 0 to |labels|
        invariant Lookup(labels, point.symbol) == Lookup(labels[i..], point.symbol)
      {
        assert labels[i..][0] == labels[i] && labels[i..][1..] == labels[i + 1..];
        if labels[i].name == point.symbol {
          ok := code.InsertByte(LoByte(labels[i].offset), point.offset);
          ok := code.InsertByte(HiByte(labels[i].offset), point.offset + 1);
          return;
        }
      }
      ok := false;
    }

    method AsRawBinary() returns (r: Option<seq<u8>>)
      requires Valid()
      modifies code, code.alloc
      ensures Valid() && (code.alloc == old(code.alloc) || fresh(code.alloc))
      ensures r == PatchAll(old(code.Contents()), links, labels)
    {
      hide Lookup, PatchAll, PatchOne;
      ghost var start := code.Contents();
      NoPatches(start, labels);
      for i := 0 to |links|
        invariant Valid() && (code.alloc == old(code.alloc) || fresh(code.alloc))
        invariant PatchAll(start, links[..i], labels) == Some(code.Contents())
      {
        PatchNext(start, links, i, labels);
        var ok := Link(links[i]);
        if !ok {
          PatchFails(start, links, labels, i + 1);
          return None;
        }
      }
      FullPrefix(links);
      var bytes := code.Bytes();
      r := Some(bytes);
    }
  }

  lemma StringStep(st: Asm, bytes: seq<u8>)
    ensures Step1(st, AString(bytes)) ==
            Some(st.(code := InsertAt(st.code, bytes + [0], st.pos), pos := st.pos + |bytes| + 1))
  {
    hide InsertAt;
    assert st.links + [] == st.links;
  }

  lemma TwoInserts(s: seq<u8>, bytes: seq<u8>, pos: nat)
    ensures InsertAt(InsertAt(s, bytes, pos), [0], pos + |bytes|) == InsertAt(s, bytes + [0], pos)
  {
  }

  /** The object, run over a program and asked for its binary, gives what the one-pass
      functions give, or stops where they do. */
  method AssembleBinary(lines: seq<AsmLine>) returns (r: Option<seq<u8>>)
    ensures r == Assemble1(lines)
  {
    var a := new AsmState();
    var ok := a.ParseLines(lines);
    if !ok {
      return None;
    }
    r := a.AsRawBinary();
  }
}
