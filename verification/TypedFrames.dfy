/**
 Frames of typed variables: every byte of a frame belongs to one scalar of one variable,
 and a compiled store touches the scalar it names and nothing else.
 */
module TypedFrames {
  import opened Words
  import opened Machine
  import opened Images
  import opened Values
  import opened Emit
  import opened Frames
  import opened Types
  import opened ExprProof
  import opened StoreProof
  import opened Convention

  datatype VarDecl = VarDecl(x: Var, ty: Type)

  function SlotsOf(ds: seq<VarDecl>): (r: seq<Slot>)
    ensures |r| == |ds| && forall i :: 0 <= i < |ds| ==> r[i] == Slot(ds[i].x, SizeOf(ds[i].ty))
  {
    seq(|ds|, i requires 0 <= i < |ds| => Slot(ds[i].x, SizeOf(ds[i].ty)))
  }

  function LayoutFor(ds: seq<VarDecl>): Layout {
    LayoutOf(SlotsOf(ds))
  }

  ghost predicate WellTyped(ds: seq<VarDecl>) {
    Distinct(SlotsOf(ds)) && forall i :: 0 <= i < |ds| ==> WellNamed(ds[i].ty)
  }

  /** The byte at bp - d belongs to the scalar that `path` names in variable i. */
  predicate Owns(ds: seq<VarDecl>, i: nat, path: seq<Sel>, d: nat) {
    var lay := LayoutFor(ds);
    i < |ds| && ds[i].x in lay && d <= lay[ds[i].x] && Holds(ds[i].ty, path, lay[ds[i].x] - d)
  }

  lemma OwnsInside(ds: seq<VarDecl>, i: nat, path: seq<Sel>, d: nat)
    requires Owns(ds, i, path, d)
    ensures var lay := LayoutFor(ds); lay[ds[i].x] - SizeOf(ds[i].ty) < d <= lay[ds[i].x]
  {
    hide Locate, LayoutOf;
    PartInside(ds[i].ty, path);
  }

  /** The scalars of the variables tile the frame. */
  lemma FrameByteOwner(ds: seq<VarDecl>, d: nat) returns (i: nat, path: seq<Sel>)
    requires WellTyped(ds) && 0 < d <= FrameSize(SlotsOf(ds))
    ensures Owns(ds, i, path, d)
    ensures forall j: nat, q | Owns(ds, j, q, d) :: j == i && q == path
  {
    hide Holds, LayoutOf;
    var slots := SlotsOf(ds);
    i := FrameTiles(slots, d);
    var at := LayoutFor(ds)[ds[i].x] - d;
    path := ScalarAt(ds[i].ty, at);
    forall j: nat, q | Owns(ds, j, q, d) ensures j == i && q == path {
      OwnsInside(ds, j, q, d);
      assert slots[j].size == SizeOf(ds[j].ty);
      if j == i {
        ScalarUnique(ds[i].ty, path, q, at);
      }
    }
  }

  // Stores ---------------------------------------------------------------------------

  /** Execution is between two blocks of a function with these variables. */
  ghost predicate Framed(ds: seq<VarDecl>, s: State) {
    WellTyped(ds) && s.regs.sp as int == s.regs.bp - FrameSize(SlotsOf(ds))
  }

  /** The scalar `part` that `path` names in variable i. */
  ghost predicate Names1(ds: seq<VarDecl>, i: nat, path: seq<Sel>, part: Part) {
    i < |ds| && Locate(ds[i].ty, path) == Some(part) && Scalar(part.ty)
  }

  function AddrOfPart(ds: seq<VarDecl>, i: nat, part: Part, bp: int): int
    requires i < |ds|
  {
    bp - Off(LayoutFor(ds), ds[i].x) + part.offset
  }

  lemma PartInFrame(ds: seq<VarDecl>, i: nat, path: seq<Sel>, part: Part, bp: int)
    requires Distinct(SlotsOf(ds)) && Names1(ds, i, path, part)
    ensures bp - FrameSize(SlotsOf(ds)) <= AddrOfPart(ds, i, part, bp)
    ensures AddrOfPart(ds, i, part, bp) + SizeOf(part.ty) <= bp
    ensures ds[i].x in LayoutFor(ds) && SizeOf(ds[i].ty) <= Off(LayoutFor(ds), ds[i].x) <= FrameSize(SlotsOf(ds))
    ensures part.offset + SizeOf(part.ty) <= SizeOf(ds[i].ty)
  {
    hide Locate, LayoutOf;
    var slots := SlotsOf(ds);
    PartInside(ds[i].ty, path);
    LayoutAt(slots, i);
    FrameSizeSplit(slots, i);
    assert slots[i..][0] == slots[i];
  }

  ghost predicate OnlyChanges(s: State, t: State, lo: int, hi: int) {
    forall b :: s.regs.sp <= b < 0x1_0000 && !(lo <= b < hi) ==> t.mem[b] == s.mem[b]
  }

  /**
   A compiled store writes the named scalar, and leaves every other byte of the frame, the
   saved registers and everything above exactly as it was if the scalar is 16 bits wide.
   A char gets its byte too, but the byte after it keeps its value only by luck.
   */
  lemma StoreRule(o: Options, names: Names, ds: seq<VarDecl>, i: nat, path: seq<Sel>, part: Part, p: Place,
                  s: State, lim: int)
    returns (t: State)
    requires Framed(ds, s) && Names1(ds, i, path, part)
    requires CanStore(o, LayoutFor(ds), names, R5, p, s, lim)
    requires PlaceAddr(p, CtxOf(LayoutFor(ds), names, s)) as int == AddrOfPart(ds, i, part, s.regs.bp)
    ensures Runs(names, EmitStore(o, LayoutFor(ds), R5, R4, p), s, t, lim)
    ensures var a := AddrOfPart(ds, i, part, s.regs.bp);
            && 0 <= a < 0xffff && Read16(t.mem, a) == s.regs.g[5]
            && (OnlyChanges(s, t, a, a + SizeOf(part.ty)) <==>
                SizeOf(part.ty) == 2 || Hi(s.regs.g[5]) == s.mem[a + 1])
    ensures t.regs.g[5] == s.regs.g[5] && t.regs.sp == s.regs.sp && t.regs.bp == s.regs.bp
  {
    hide CanStore, EmitStore, PlaceAddr, LayoutOf, Locate, Runs;
    PartInFrame(ds, i, path, part, s.regs.bp);
    t := StoreCorrect(o, LayoutFor(ds), names, R5, p, s, lim);
    var a := AddrOfPart(ds, i, part, s.regs.bp);
    Changed(s, t, a, s.regs.g[5], PlaceDepth(p), SizeOf(part.ty));
  }

  lemma Changed(s: State, t: State, a: u16, v: u16, depth: nat, size: int)
    requires Stored(s, t, a, v, depth) && s.regs.sp <= a && (size == 1 || size == 2)
    ensures OnlyChanges(s, t, a, a + size) <==> size == 2 || Hi(v) == s.mem[a + 1]
  {
    assert t.mem[a + 1] == Hi(v);
  }

  /** No byte of another scalar is inside the bytes of this one. */
  lemma OtherScalar(ds: seq<VarDecl>, i: nat, path: seq<Sel>, part: Part, j: nat, q: seq<Sel>, d: nat, bp: int)
    requires WellTyped(ds) && Names1(ds, i, path, part) && Owns(ds, j, q, d) && 0 < d <= FrameSize(SlotsOf(ds))
    requires j != i || q != path
    ensures var a := AddrOfPart(ds, i, part, bp); !(a <= bp - d < a + SizeOf(part.ty))
  {
    hide LayoutOf;
    PartInFrame(ds, i, path, part, bp);
    var k, r := FrameByteOwner(ds, d);
    ByteOfPart(ds, i, path, part, d, bp);
  }

  lemma ByteOfPart(ds: seq<VarDecl>, i: nat, path: seq<Sel>, part: Part, d: nat, bp: int)
    requires WellTyped(ds) && Names1(ds, i, path, part)
    ensures var a := AddrOfPart(ds, i, part, bp); a <= bp - d < a + SizeOf(part.ty) ==> Owns(ds, i, path, d)
  {
    hide LayoutOf, Locate;
    PartInFrame(ds, i, path, part, bp);
  }

  lemma AboveUntouched(ds: seq<VarDecl>, i: nat, path: seq<Sel>, part: Part, s: State, t: State)
    requires Framed(ds, s) && Names1(ds, i, path, part)
    requires OnlyChanges(s, t, AddrOfPart(ds, i, part, s.regs.bp), AddrOfPart(ds, i, part, s.regs.bp) + SizeOf(part.ty))
    ensures SameAbove(s.mem, t.mem, s.regs.bp)
  {
    hide AddrOfPart, LayoutOf, Locate;
    PartInFrame(ds, i, path, part, s.regs.bp);
  }

  /** A 16-bit store changes no byte of any other scalar of the frame, nor anything from bp up. */
  lemma OthersUntouched(ds: seq<VarDecl>, i: nat, path: seq<Sel>, part: Part, j: nat, q: seq<Sel>, d: nat, s: State, t: State)
    requires Framed(ds, s) && Names1(ds, i, path, part)
    requires OnlyChanges(s, t, AddrOfPart(ds, i, part, s.regs.bp), AddrOfPart(ds, i, part, s.regs.bp) + SizeOf(part.ty))
    requires Owns(ds, j, q, d) && 0 < d <= FrameSize(SlotsOf(ds)) && (j != i || q != path)
    ensures t.mem[s.regs.bp - d] == s.mem[s.regs.bp - d] && SameAbove(s.mem, t.mem, s.regs.bp)
  {
    hide Owns, WellTyped, Names1, AddrOfPart, SameAbove;
    AboveUntouched(ds, i, path, part, s, t);
    OtherScalar(ds, i, path, part, j, q, d, s.regs.bp);
  }

  /** Whether a store to a scalar is one the calling convention survives: a 16-bit scalar
      always, a char exactly when it is not the topmost byte of the frame, right below the
      word the preamble saved last. */
  lemma ScalarAllowed(ds: seq<VarDecl>, i: nat, path: seq<Sel>, part: Part, bp: u16, keep: iset<u16>)
    requires Distinct(SlotsOf(ds)) && Names1(ds, i, path, part)
    requires AllAbove(keep, bp) && SavedArea(bp) <= keep
    ensures var a := AddrOfPart(ds, i, part, bp);
            (forall x :: x in keep ==> x != a && x != a + 1) <==> SizeOf(part.ty) == 2 || a + 1 < bp
  {
    hide Locate, LayoutOf, AddrOfPart;
    PartInFrame(ds, i, path, part, bp);
    assert IsSaved(bp, bp) && bp in SavedArea(bp);
  }

  // The places the compiler makes ----------------------------------------------------

  lemma VarPlace(ds: seq<VarDecl>, i: nat, part: Part, c: Ctx)
    requires Distinct(SlotsOf(ds)) && Names1(ds, i, [], part)
    requires c.lay == LayoutFor(ds) && FrameSize(SlotsOf(ds)) <= c.bp
    ensures PlaceAddr(PVar(ds[i].x, 0), c) as int == AddrOfPart(ds, i, part, c.bp)
    ensures AddrEval(Local(ds[i].x, 0, false, false), c) as int == AddrOfPart(ds, i, part, c.bp)
  {
    PartInFrame(ds, i, [], part, c.bp);
  }

  lemma FieldPlace(ds: seq<VarDecl>, i: nat, f: string, part: Part, c: Ctx)
    requires Distinct(SlotsOf(ds)) && Names1(ds, i, [FieldSel(f)], part)
    requires c.lay == LayoutFor(ds) && FrameSize(SlotsOf(ds)) <= c.bp
    ensures ds[i].ty.StructT?
    ensures var off := FieldOffset(ds[i].ty.fields, f);
            && PlaceAddr(PVar(ds[i].x, off), c) as int == AddrOfPart(ds, i, part, c.bp)
            && AddrEval(Local(ds[i].x, off, false, false), c) as int == AddrOfPart(ds, i, part, c.bp)
  {
    PartInFrame(ds, i, [FieldSel(f)], part, c.bp);
    assert [FieldSel(f)] == [FieldSel(f)] + [];
    LocateField(ds[i].ty.fields, f, [], part);
  }

  /** Where element k lies, before any 16-bit arithmetic. */
  lemma ElementOffset(ds: seq<VarDecl>, i: nat, k: nat, rest: seq<Sel>, part: Part, bp: int)
    requires Distinct(SlotsOf(ds)) && Names1(ds, i, [ElemSel(k)] + rest, part)
    ensures ds[i].ty.ArrayT? && ElementSize(ds[i].ty) == SizeOf(ds[i].ty.elem) <= FrameSize(SlotsOf(ds))
    ensures Locate(ds[i].ty.elem, rest) == Some(Part(part.offset - k * SizeOf(ds[i].ty.elem), part.ty))
    ensures 0 <= part.offset - k * ElementSize(ds[i].ty)
  {
    hide LayoutOf, Locate;
    PartInFrame(ds, i, [ElemSel(k)] + rest, part, bp);
    ElemOnlyInArray(ds[i].ty, k, rest);
    LocateElem(ds[i].ty.elem, ds[i].ty.count, k, rest, part);
    MulAtLeast(1, ds[i].ty.count, SizeOf(ds[i].ty.elem));
  }

  lemma ElemOnlyInArray(t: Type, k: nat, rest: seq<Sel>)
    requires Locate(t, [ElemSel(k)] + rest).Some?
    ensures t.ArrayT?
  {
  }

  lemma WrappedSum(p: int, bp: u16, off: int, inner: int, a: int)
    requires a == bp - off + (p + inner) && 0 <= a <= bp
    ensures Wrap(p + bp - (off - inner)) == a
    ensures Wrap(Wrap(bp - (off - inner)) as int + Wrap(p) as int) == a
  {
    WrapAdd(Wrap(bp - (off - inner)), p);
    WrapAdd(bp - (off - inner), p);
  }

  lemma WrappedElement(e: u16, n: int, bp: u16, off: int, inner: int, a: int)
    requires 0 <= n <= bp && a == bp - off + (e * n + inner) && 0 <= a <= bp
    ensures Wrap(e * Wrap(n) + bp - (off - inner)) == a
    ensures Wrap(Wrap(bp - (off - inner)) as int + Wrap(e * Wrap(n)) as int) == a
  {
    hide Wrap;
    SmallWord(n);
    WrappedSum(e * n, bp, off, inner, a);
  }

  lemma SmallWord(n: int)
    requires 0 <= n < 0x1_0000
    ensures Wrap(n) == n
  {
  }

  lemma ElementPlace(ds: seq<VarDecl>, i: nat, k: nat, part: Part, index: Value, c: Ctx)
    requires Distinct(SlotsOf(ds)) && Names1(ds, i, [ElemSel(k)], part)
    requires c.lay == LayoutFor(ds) && FrameSize(SlotsOf(ds)) <= c.bp && Eval(index, c) as int == k
    ensures var n := ElementSize(ds[i].ty);
            && PlaceAddr(PArray(ds[i].x, 0, n, index), c) as int == AddrOfPart(ds, i, part, c.bp)
            && IndexAddr(Index(Local(ds[i].x, 0, false, false), index, n, false), c) as int == AddrOfPart(ds, i, part, c.bp)
  {
    hide LayoutOf, Locate, Eval, Wrap;
    assert [ElemSel(k)] == [ElemSel(k)] + [];
    ElementOffset(ds, i, k, [], part, c.bp);
    PartInFrame(ds, i, [ElemSel(k)], part, c.bp);
    LocateHere(ds[i].ty.elem);
    WrappedElement(Eval(index, c), ElementSize(ds[i].ty), c.bp, Off(c.lay, ds[i].x), 0, AddrOfPart(ds, i, part, c.bp));
  }

  lemma LocateHere(t: Type)
    ensures Locate(t, []) == Some(Part(0, t))
  {
  }

  lemma ElementFieldPlace(ds: seq<VarDecl>, i: nat, k: nat, f: string, part: Part, index: Value, c: Ctx)
    requires Distinct(SlotsOf(ds)) && Names1(ds, i, [ElemSel(k), FieldSel(f)], part)
    requires c.lay == LayoutFor(ds) && FrameSize(SlotsOf(ds)) <= c.bp && Eval(index, c) as int == k
    ensures ds[i].ty.ArrayT? && ds[i].ty.elem.StructT?
    ensures var n, off := ElementSize(ds[i].ty), FieldOffset(ds[i].ty.elem.fields, f);
            PlaceAddr(PArray(ds[i].x, off, n, index), c) as int == AddrOfPart(ds, i, part, c.bp)
  {
    hide LayoutOf, Locate, Eval, Wrap;
    assert [ElemSel(k), FieldSel(f)] == [ElemSel(k)] + [FieldSel(f)];
    ElementOffset(ds, i, k, [FieldSel(f)], part, c.bp);
    PartInFrame(ds, i, [ElemSel(k), FieldSel(f)], part, c.bp);
    var n := ElementSize(ds[i].ty);
    var inner := part.offset - k * n;
    FieldInElement(ds[i].ty.elem, f, Part(inner, part.ty));
    WrappedElement(Eval(index, c), n, c.bp, Off(c.lay, ds[i].x), inner, AddrOfPart(ds, i, part, c.bp));
  }

  lemma FieldInElement(t: Type, f: string, part: Part)
    requires Locate(t, [FieldSel(f)]) == Some(part)
    ensures t.StructT? && part.offset == FieldOffset(t.fields, f)
  {
    assert [FieldSel(f)] == [FieldSel(f)] + [];
    LocateField(t.fields, f, [], part);
  }

  // Reading back ---------------------------------------------------------------------

  /** Values whose code ends in a load. */
  predicate Loads(v: Value) {
    match v
    case Local(_, _, _, decay) => !decay
    case Global(_, decay) => !decay
    case Index(_, _, _, _) => true
    case _ => false
  }

  /** Where the load reads. */
  function LoadAddr(v: Value, c: Ctx): u16
    requires Loads(v)
  {
    if v.Index? then IndexAddr(v, c) else AddrEval(v, c)
  }

  /** What the load makes of the word it reads. */
  function Cut(v: Value, word: u16): u16 {
    if v.Index? && v.elemSize == 1 then Lo(word) else word
  }

  /** Computing where to load, index and base included, reads nothing in [lo, hi). */
  predicate PathSafe(v: Value, c: Ctx, lo: int, hi: int) {
    match v
    case Index(b, i, _, viaPointer) =>
      Safe(i, c, lo, hi) && (if viaPointer then Safe(b, c, lo, hi) else AddrSafe(b, c, lo, hi))
    case _ => AddrSafe(v, c, lo, hi)
  }

  /** A value that stays clear of two ranges stays clear of the one when the other changes. */
  lemma {:induction false} SafeElsewhere(v: Value, c: Ctx, m: Memory, lo: int, hi: int, lo': int, hi': int)
    requires Safe(v, c, lo, hi) && Safe(v, c, lo', hi') && SameOutside(c.mem, m, lo, hi)
    ensures Safe(v, c.(mem := m), lo', hi')
  {
    match v
    case Op(_, l, r) =>
      SafeElsewhere(l, c, m, lo, hi, lo', hi');
      SafeElsewhere(r, c, m, lo, hi, lo', hi');
    case Index(b, i, _, viaPointer) =>
      SafeElsewhere(i, c, m, lo, hi, lo', hi');
      EvalFrame(i, c, m, lo, hi);
      if viaPointer {
        SafeElsewhere(b, c, m, lo, hi, lo', hi');
        EvalFrame(b, c, m, lo, hi);
      } else {
        AddrFrame(b, c, m, lo, hi);
      }
    case Local(_, _, _, _) => AddrFrame(v, c, m, lo, hi);
    case _ =>
  }

  lemma PathElsewhere(v: Value, c: Ctx, m: Memory, lo: int, hi: int, lo': int, hi': int)
    requires Loads(v) && PathSafe(v, c, lo, hi) && PathSafe(v, c, lo', hi') && SameOutside(c.mem, m, lo, hi)
    ensures PathSafe(v, c.(mem := m), lo, hi) && PathSafe(v, c.(mem := m), lo', hi')
    ensures LoadAddr(v, c.(mem := m)) == LoadAddr(v, c)
  {
    hide Safe, Eval;
    if v.Index? {
      EvalFrame(v.index, c, m, lo, hi);
      SafeElsewhere(v.index, c, m, lo, hi, lo', hi');
      if v.viaPointer {
        EvalFrame(v.base, c, m, lo, hi);
        SafeElsewhere(v.base, c, m, lo, hi, lo', hi');
      } else {
        AddrFrame(v.base, c, m, lo, hi);
      }
      AddressOf(v, c);
      AddressOf(v, c.(mem := m));
    } else {
      AddrFrame(v, c, m, lo, hi);
    }
  }

  lemma AddressOf(v: Value, c: Ctx)
    requires v.Index?
    ensures IndexAddr(v, c) ==
            Wrap((if v.viaPointer then Eval(v.base, c) else AddrEval(v.base, c)) + Wrap(Eval(v.index, c) * Wrap(v.elemSize)))
  {
  }

  /** Neither scratch nor the stored word moves a load whose path reads neither. */
  lemma PathKeeps(v: Value, c: Ctx, m: Memory, lo: int, hi: int, a: int)
    requires Loads(v) && PathSafe(v, c, lo, hi) && PathSafe(v, c, a, a + 2)
    requires forall b | 0 <= b < 0x1_0000 && !(lo <= b < hi) && !(a <= b < a + 2) :: c.mem[b] == m[b]
    ensures PathSafe(v, c.(mem := m), lo, hi) && LoadAddr(v, c.(mem := m)) == LoadAddr(v, c)
  {
    hide PathSafe, LoadAddr;
    var m1: Memory := seq(0x1_0000, b requires 0 <= b < 0x1_0000 => if lo <= b < hi then m[b] else c.mem[b]);
    PathElsewhere(v, c, m1, lo, hi, a, a + 2);
    assert c.(mem := m1).(mem := m) == c.(mem := m);
    PathElsewhere(v, c.(mem := m1), m, a, a + 2, lo, hi);
  }

  /** A load from the address of a word just stored, in the state after the store. */
  lemma LoadBack(o: Options, lay: Layout, names: Names, v: Value, reg: GprIndex, u: State, a: u16, word: u16, lim: int)
    returns (t: State)
    requires Loads(v) && LoadAddr(v, CtxOf(lay, names, u)) == a && a < 0xffff && Read16(u.mem, a) == word
    requires CanEval(o, lay, names, reg, v, u, lim)
    ensures Runs(names, EmitValue(o, lay, reg, v), u, t, lim) && t.regs.g[reg] == Cut(v, word)
  {
    hide Runs, CanEval, EmitValue;
    t := ExprCorrect(o, lay, names, reg, v, u, lim);
  }

  /** What a store leaves of the conditions of a load behind it. */
  lemma StillCan(o: Options, lay: Layout, names: Names, v: Value, reg: GprIndex, s: State, u: State, a: u16, lo: int, lim: int)
    requires Loads(v) && Sound(o, reg, v) && Room(u, |EmitValue(o, lay, reg, v)|)
    requires PathSafe(v, CtxOf(lay, names, s), lo, s.regs.sp) && PathSafe(v, CtxOf(lay, names, s), a, a + 2)
    requires LoadAddr(v, CtxOf(lay, names, s)) == a && Clear(a, lo, s.regs.sp)
    requires forall b | 0 <= b < 0x1_0000 && !(lo <= b < s.regs.sp) && !(a <= b < a + 2) :: s.mem[b] == u.mem[b]
    requires u.regs.sp == s.regs.sp && u.regs.bp == s.regs.bp && 0 <= lim <= lo <= s.regs.sp - 2 * Depth(v)
    ensures CanEval(o, lay, names, reg, v, u, lim) && LoadAddr(v, CtxOf(lay, names, u)) == a
  {
    hide EmitValue, Sound, Depth, Eval;
    var c, d := CtxOf(lay, names, s), CtxOf(lay, names, u);
    PathKeeps(v, c, u.mem, lo, s.regs.sp, a);
    assert c.(mem := u.mem) == d;
    assert Safe(v, d, lo, s.regs.sp);
    SafeShrink(v, d, lo, s.regs.sp, s.regs.sp - 2 * Depth(v), s.regs.sp);
  }

  /**
   A store to a scalar followed by a load from the same address yields the stored word: a
   plain variable, a field, an element with any index computed at run time, through a
   pointer or not, as long as computing the address does not read the stored word itself.
   */
  lemma StoreThenLoad(o: Options, names: Names, ds: seq<VarDecl>, i: nat, path: seq<Sel>, part: Part, p: Place,
                      v: Value, reg: GprIndex, s: State, lo: int, lim: int)
    returns (t: State)
    requires Framed(ds, s) && Names1(ds, i, path, part)
    requires CanStore(o, LayoutFor(ds), names, R5, p, s, lim)
    requires PlaceAddr(p, CtxOf(LayoutFor(ds), names, s)) as int == AddrOfPart(ds, i, part, s.regs.bp)
    requires Loads(v) && LoadAddr(v, CtxOf(LayoutFor(ds), names, s)) as int == AddrOfPart(ds, i, part, s.regs.bp)
    requires Sound(o, reg, v) && lim <= lo <= s.regs.sp - 2 * Depth(v) && lo <= s.regs.sp - 2 * PlaceDepth(p)
    requires PathSafe(v, CtxOf(LayoutFor(ds), names, s), lo, s.regs.sp)
    requires var a := AddrOfPart(ds, i, part, s.regs.bp); PathSafe(v, CtxOf(LayoutFor(ds), names, s), a, a + 2)
    requires Room(s, |EmitStore(o, LayoutFor(ds), R5, R4, p)| + |EmitValue(o, LayoutFor(ds), reg, v)|)
    ensures Runs(names, EmitStore(o, LayoutFor(ds), R5, R4, p) + EmitValue(o, LayoutFor(ds), reg, v), s, t, lim)
    ensures t.regs.g[reg] == Cut(v, s.regs.g[5])
  {
    hide EmitStore, PlaceAddr, LayoutOf, Locate, EmitValue, Runs, Framed, CanStore, CanEval, Depth, PlaceDepth, Sound,
         PathSafe, LoadAddr, Names1;
    var lay := LayoutFor(ds);
    var a := PlaceAddr(p, CtxOf(lay, names, s));
    StoreLimits(o, lay, names, p, s, lim);
    AboveFrame(ds, i, path, part, s);
    var u := StoreCorrect(o, lay, names, R5, p, s, lim);
    RunsIp(names, EmitStore(o, lay, R5, R4, p), s, u, lim);
    StillCan(o, lay, names, v, reg, s, u, a, lo, lim);
    t := LoadBack(o, lay, names, v, reg, u, a, s.regs.g[5], lim);
    RunsThen(names, EmitStore(o, lay, R5, R4, p), EmitValue(o, lay, reg, v), s, u, t, lim);
  }

  /** Two different 16-bit scalars of a frame have no byte in common. */
  lemma ScalarsApart(ds: seq<VarDecl>, i: nat, path: seq<Sel>, part: Part, j: nat, q: seq<Sel>, other: Part, bp: int)
    requires WellTyped(ds) && Names1(ds, i, path, part) && Names1(ds, j, q, other) && (j != i || q != path)
    requires SizeOf(part.ty) == 2 && SizeOf(other.ty) == 2
    ensures var a, b := AddrOfPart(ds, i, part, bp), AddrOfPart(ds, j, other, bp); a + 2 <= b || b + 2 <= a
  {
    hide LayoutOf, Locate, Owns;
    var a, b := AddrOfPart(ds, i, part, bp), AddrOfPart(ds, j, other, bp);
    PartInFrame(ds, i, path, part, bp);
    PartInFrame(ds, j, q, other, bp);
    if b < a + 2 && a < b + 2 {
      var d := bp - if a <= b then b else a;
      ByteOfPart(ds, i, path, part, d, bp);
      ByteOfPart(ds, j, q, other, d, bp);
      var k, r := FrameByteOwner(ds, d);
    }
  }

  /**
   `a[i] = x` and then `a[i]`, with the index in any other 16-bit scalar of the frame: every
   element in range is read back.
   */
  lemma ElementReadBack(o: Options, names: Names, ds: seq<VarDecl>, i: nat, k: nat, part: Part,
                        j: nat, q: seq<Sel>, other: Part, index: Value, reg: GprIndex, s: State, lim: int)
    returns (t: State)
    requires Framed(ds, s) && Names1(ds, i, [ElemSel(k)], part) && SizeOf(part.ty) == 2
    requires Names1(ds, j, q, other) && SizeOf(other.ty) == 2 && (j != i || q != [ElemSel(k)])
    requires index.Local? && !index.deref && !index.decay
    requires AddrEval(index, CtxOf(LayoutFor(ds), names, s)) as int == AddrOfPart(ds, j, other, s.regs.bp)
    requires Eval(index, CtxOf(LayoutFor(ds), names, s)) as int == k && 0 <= lim <= s.regs.sp
    requires var n := ElementSize(ds[i].ty);
             Room(s, |EmitStore(o, LayoutFor(ds), R5, R4, PArray(ds[i].x, 0, n, index))| +
                     |EmitValue(o, LayoutFor(ds), reg, Index(Local(ds[i].x, 0, false, false), index, n, false))|)
    ensures var n, lay := ElementSize(ds[i].ty), LayoutFor(ds);
            Runs(names, EmitStore(o, lay, R5, R4, PArray(ds[i].x, 0, n, index)) +
                        EmitValue(o, lay, reg, Index(Local(ds[i].x, 0, false, false), index, n, false)), s, t, lim)
    ensures t.regs.g[reg] == s.regs.g[5]
  {
    hide LayoutOf, Locate, EmitStore, EmitValue, Runs;
    var lay, n := LayoutFor(ds), ElementSize(ds[i].ty);
    var c := CtxOf(lay, names, s);
    var p, v := PArray(ds[i].x, 0, n, index), Index(Local(ds[i].x, 0, false, false), index, n, false);
    ElementPlace(ds, i, k, part, index, c);
    PartInFrame(ds, i, [ElemSel(k)], part, s.regs.bp);
    PartInFrame(ds, j, q, other, s.regs.bp);
    ScalarsApart(ds, i, [ElemSel(k)], part, j, q, other, s.regs.bp);
    WordElement(ds[i].ty, k, part);
    t := StoreThenLoad(o, names, ds, i, [ElemSel(k)], part, p, v, reg, s, s.regs.sp, lim);
  }

  lemma WordElement(t: Type, k: nat, part: Part)
    requires Locate(t, [ElemSel(k)]) == Some(part) && SizeOf(part.ty) == 2
    ensures ElementSize(t) == 2
  {
    ElemOnlyInArray(t, k, []);
    assert [ElemSel(k)] == [ElemSel(k)] + [];
    LocateElem(t.elem, t.count, k, [], part);
    LocateHere(t.elem);
  }

  lemma StoreLimits(o: Options, lay: Layout, names: Names, p: Place, s: State, lim: int)
    requires CanStore(o, lay, names, R5, p, s, lim)
    ensures 0 <= lim && PlaceAddr(p, CtxOf(lay, names, s)) < 0xffff
  {
  }

  lemma AboveFrame(ds: seq<VarDecl>, i: nat, path: seq<Sel>, part: Part, s: State)
    requires Framed(ds, s) && Names1(ds, i, path, part)
    ensures s.regs.sp <= AddrOfPart(ds, i, part, s.regs.bp)
  {
    PartInFrame(ds, i, path, part, s.regs.bp);
  }
}
