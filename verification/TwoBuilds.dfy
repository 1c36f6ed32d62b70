/**
 Two builds of the same function bodies, with the optimisation switches set either way:
 from states alike in what the program can see, they run the same blocks and show the same
 values, arrays, pointers and calls included.
 */
module TwoBuilds {
  import opened Words
  import opened Machine
  import opened Images
  import opened Values
  import opened Emit
  import opened ExprProof
  import opened StoreProof
  import opened Frames
  import opened Compile
  import opened FuncCode
  import opened SimBase
  import opened SimCode
  import opened Traces
  import opened Convention

  // What the program can see -----------------------------------------------------------

  /** The states agree in sp, bp, the flag, r0 to r3, and the bytes from sp up that are not
      hidden: return addresses, saved registers and locals nothing was stored to yet. */
  ghost predicate Alike(s: State, t: State, hidden: iset<u16>) {
    && s.regs.sp == t.regs.sp && s.regs.bp == t.regs.bp && s.regs.cf == t.regs.cf
    && (forall i :: 0 <= i < 4 ==> s.regs.g[i] == t.regs.g[i])
    && SeenAlike(s.mem, t.mem, s.regs.sp, hidden)
  }

  ghost predicate SeenAlike(m: Memory, n: Memory, sp: int, hidden: iset<u16>) {
    forall a: u16 :: sp <= a && a !in hidden ==> m[a] == n[a]
  }

  /** The word at `a` can be seen. */
  ghost predicate Seen(a: u16, sp: int, hidden: iset<u16>) {
    sp <= a < 0xffff && a !in hidden && a + 1 !in hidden
  }

  ghost predicate SeesAddr(v: Value, c: Ctx, sp: int, hidden: iset<u16>) {
    match v
    case Local(x, _, deref, _) => deref ==> Seen(Wrap(c.bp - Off(c.lay, x)), sp, hidden)
    case Global(_, _) => false
    case _ => true
  }

  /** The evaluation reads nothing but what can be seen, and no symbol's address. */
  ghost predicate Sees(v: Value, c: Ctx, sp: int, hidden: iset<u16>) {
    match v
    case Imm(_) => true
    case AddrOf(_) => true
    case Local(_, _, _, decay) => SeesAddr(v, c, sp, hidden) && (decay || Seen(AddrEval(v, c), sp, hidden))
    case Op(_, l, r) => Sees(l, c, sp, hidden) && Sees(r, c, sp, hidden)
    case Index(b, i, _, viaPointer) =>
      && Sees(i, c, sp, hidden) && (if viaPointer then Sees(b, c, sp, hidden) else SeesAddr(b, c, sp, hidden))
      && Seen(IndexAddr(v, c), sp, hidden)
    case _ => false
  }

  /** The two contexts are of one frame, and agree in what can be seen. */
  ghost predicate CtxAlike(c: Ctx, d: Ctx, sp: int, hidden: iset<u16>) {
    c.lay == d.lay && c.bp == d.bp && SeenAlike(c.mem, d.mem, sp, hidden)
  }

  lemma SeenWord(a: u16, c: Ctx, d: Ctx, sp: int, hidden: iset<u16>)
    requires CtxAlike(c, d, sp, hidden) && Seen(a, sp, hidden)
    ensures c.Rd(a) == d.Rd(a)
  {
    assert c.mem[a] == d.mem[a] && c.mem[a + 1] == d.mem[a + 1];
  }

  lemma AddrAlike(v: Value, c: Ctx, d: Ctx, sp: int, hidden: iset<u16>)
    requires CtxAlike(c, d, sp, hidden) && SeesAddr(v, c, sp, hidden)
    ensures AddrEval(v, c) == AddrEval(v, d)
  {
    hide SeenAlike, Seen;
    if v.Local? && v.deref {
      SeenWord(Wrap(c.bp - Off(c.lay, v.x)), c, d, sp, hidden);
    }
  }

  lemma {:induction false} EvalAlike(v: Value, c: Ctx, d: Ctx, sp: int, hidden: iset<u16>)
    requires CtxAlike(c, d, sp, hidden) && Sees(v, c, sp, hidden)
    ensures Eval(v, c) == Eval(v, d)
  {
    hide CtxAlike, Seen, SeesAddr, AddrEval;
    match v
    case Local(_, _, _, decay) =>
      AddrAlike(v, c, d, sp, hidden);
      if !decay { SeenWord(AddrEval(v, c), c, d, sp, hidden); }
    case Op(_, l, r) =>
      EvalAlike(l, c, d, sp, hidden);
      EvalAlike(r, c, d, sp, hidden);
    case Index(b, i, _, viaPointer) =>
      EvalAlike(i, c, d, sp, hidden);
      if viaPointer { EvalAlike(b, c, d, sp, hidden); } else { AddrAlike(b, c, d, sp, hidden); }
      SeenWord(IndexAddr(v, c), c, d, sp, hidden);
    case AddrOf(x) => SameDistance(x, c, d, sp, hidden);
    case _ =>
  }

  lemma SameDistance(x: Var, c: Ctx, d: Ctx, sp: int, hidden: iset<u16>)
    requires CtxAlike(c, d, sp, hidden)
    ensures Wrap(c.bp - Off(c.lay, x)) == Wrap(d.bp - Off(d.lay, x))
  {
  }

  ghost predicate SeesPlace(p: Place, c: Ctx, sp: int, hidden: iset<u16>) {
    match p
    case PVar(_, _) => true
    case PGlobal(_) => false
    case PArray(_, _, _, index) => Sees(index, c, sp, hidden)
    case PPointer(x, offset, _, index) =>
      Sees(index, c, sp, hidden) && Seen(Wrap(c.bp - (Off(c.lay, x) - offset)), sp, hidden)
  }

  lemma PlaceAlike(p: Place, c: Ctx, d: Ctx, sp: int, hidden: iset<u16>)
    requires CtxAlike(c, d, sp, hidden) && SeesPlace(p, c, sp, hidden)
    ensures PlaceAddr(p, c) == PlaceAddr(p, d)
  {
    hide Sees, SeenAlike, Seen;
    match p
    case PArray(_, _, _, index) => EvalAlike(index, c, d, sp, hidden);
    case PPointer(x, offset, _, index) =>
      EvalAlike(index, c, d, sp, hidden);
      SeenWord(Wrap(c.bp - (Off(c.lay, x) - offset)), c, d, sp, hidden);
    case _ =>
  }

  // What a block does to it ----------------------------------------------------------------

  /** Nothing that can be seen has changed but perhaps register `reg`. */
  ghost predicate Quiet(s: State, t: State, reg: int) {
    && t.regs.sp == s.regs.sp && t.regs.bp == s.regs.bp && SameAbove(s.mem, t.mem, s.regs.sp)
    && forall i :: 0 <= i < 4 && i != reg ==> t.regs.g[i] == s.regs.g[i]
  }

  /** The word v was written at `a`, and nothing else that can be seen has changed. */
  ghost predicate Wrote(s: State, t: State, a: u16, v: u16) {
    && a < 0xffff && t.mem[a] == Lo(v) && t.mem[a + 1] == Hi(v)
    && t.regs.sp == s.regs.sp && t.regs.bp == s.regs.bp && t.regs.cf == s.regs.cf
    && (forall b: u16 :: s.regs.sp <= b && b != a && b != a + 1 ==> t.mem[b] == s.mem[b])
    && forall i :: 0 <= i < 4 ==> t.regs.g[i] == s.regs.g[i]
  }

  ghost function WordAt(a: int): iset<u16> {
    iset b: u16 | InWord(a, b)
  }

  predicate InWord(a: int, b: u16) {
    b == a || b == a + 1
  }

  lemma WroteAlike(s: State, s': State, t: State, t': State, a: u16, v: u16, hidden: iset<u16>)
    requires Alike(s, s', hidden) && Wrote(s, t, a, v) && Wrote(s', t', a, v)
    ensures Alike(t, t', hidden - WordAt(a))
  {
    forall b: u16 | t.regs.sp <= b && b !in hidden - WordAt(a) ensures t.mem[b] == t'.mem[b] {
      if b in hidden {
        assert b in WordAt(a);
      }
    }
  }

  /** A value evaluated into a register. */
  lemma ValueEffect(b: Build, c: Code, reg: GprIndex, v: Value, k: nat, s: State, t: State)
    requires CanEval(b.o, c.lay, Names(b.env, c.scope), reg, v, s, b.img.lim) && Stands(s, k)
    requires Loaded(Lines(EmitValue(b.o, c.lay, reg, v)), k, b.img, Names(b.env, c.scope))
    requires Run(b.img, s, |EmitValue(b.o, c.lay, reg, v)|) == Next(t)
    ensures Quiet(s, t, reg) && t.regs.cf == s.regs.cf && t.regs.g[reg] == Eval(v, CtxOf(c.lay, Names(b.env, c.scope), s))
  {
    hide Loaded, Lines, EmitValue, Run, CanEval, Eval, Runs;
    var x := ExprCorrect(b.o, c.lay, Names(b.env, c.scope), reg, v, s, b.img.lim);
    StepsAre(b, Names(b.env, c.scope), EmitValue(b.o, c.lay, reg, v), k, s, x);
  }

  /** A register stored. */
  lemma StoreEffect(b: Build, c: Code, reg: GprIndex, p: Place, k: nat, s: State, t: State)
    requires CanStore(b.o, c.lay, Names(b.env, c.scope), reg, p, s, b.img.lim) && Stands(s, k)
    requires Loaded(Lines(EmitStore(b.o, c.lay, reg, R4, p)), k, b.img, Names(b.env, c.scope))
    requires Run(b.img, s, |EmitStore(b.o, c.lay, reg, R4, p)|) == Next(t) && reg != 4 && reg != 6
    ensures Wrote(s, t, PlaceAddr(p, CtxOf(c.lay, Names(b.env, c.scope), s)), s.regs.g[reg])
    ensures t.regs.g[reg] == s.regs.g[reg]
  {
    hide Loaded, Lines, EmitStore, Run, CanStore, PlaceAddr, Runs;
    var x := StoreCorrect(b.o, c.lay, Names(b.env, c.scope), reg, p, s, b.img.lim);
    StepsAre(b, Names(b.env, c.scope), EmitStore(b.o, c.lay, reg, R4, p), k, s, x);
    StoredWrote(s, t, PlaceAddr(p, CtxOf(c.lay, Names(b.env, c.scope), s)), s.regs.g[reg], PlaceDepth(p));
  }

  lemma StoredWrote(s: State, t: State, a: u16, v: u16, depth: nat)
    requires Stored(s, t, a, v, depth)
    ensures Wrote(s, t, a, v)
  {
    assert t.mem[a] == Lo(v) && t.mem[a + 1] == Hi(v);
  }

  /** A value evaluated into r5 and stored. */
  lemma StoreBEffect(b: Build, c: Code, p: Place, v: Value, k: nat, s: State, t: State, keep: iset<u16>)
    returns (mid: State)
    requires Allowed(b, c, StoreB(p, v), s, keep) && Stands(s, k)
    requires Loaded(Lines(BlockCode(b.o, c.lay, StoreB(p, v))), k, b.img, Names(b.env, c.scope))
    requires Run(b.img, s, |BlockCode(b.o, c.lay, StoreB(p, v))|) == Next(t)
    ensures Quiet(s, mid, 5) && mid.regs.cf == s.regs.cf
    ensures var w := Eval(v, CtxOf(c.lay, Names(b.env, c.scope), s));
            t.regs.g[5] == w && Wrote(mid, t, PlaceAddr(p, CtxOf(c.lay, Names(b.env, c.scope), mid)), w)
  {
    hide Loaded, Lines, EmitValue, EmitStore, Run, CanEval, CanStore, Eval, PlaceAddr, Runs, Wrote, Quiet;
    var names := Names(b.env, c.scope);
    var A, B := EmitValue(b.o, c.lay, R5, v), EmitStore(b.o, c.lay, R5, R4, p);
    FirstPart(A, B, k, b.img, names);
    LastPart(A, B, k, b.img, names);
    mid := ExprCorrect(b.o, c.lay, names, R5, v, s, b.img.lim);
    StepsAre(b, names, A, k, s, mid);
    ValueEffect(b, c, R5, v, k, s, mid);
    RunAppend(b.img, s, mid, |A|, |B|);
    StoreEffect(b, c, R5, p, k + |A|, mid, t);
  }

  lemma LastPart(a: seq<Instr>, z: seq<Instr>, k: nat, img: Image, names: Names)
    requires Loaded(Lines(a + z), k, img, names)
    ensures Loaded(Lines(z), k + |a|, img, names)
  {
    hide Resolve;
    assert Lines(a + z) == Lines(a) + Lines(z);
    LoadedAppend(Lines(a), Lines(z), k, img, names);
    CountLines(a);
  }

  // One block, twice ----------------------------------------------------------------------------

  /** What a block looks at can be seen. */
  ghost predicate BlockSees(b: Build, c: Code, k: Block, s: State, hidden: iset<u16>) {
    var x, sp := CtxOf(c.lay, Names(b.env, c.scope), s), s.regs.sp;
    match k
    case StoreB(p, v) => Sees(v, x, sp, hidden) && SeesPlace(p, x, sp, hidden)
    case StoreReturn(v) => Sees(v, x, sp, hidden)
    case StoreArg(_, i) => i < 4
    case CmpB(l, r) => Sees(l, x, sp, hidden) && Sees(r, x, sp, hidden)
    case CallB(_, args) => forall i :: 0 <= i < |args| ==> Sees(args[i], x, sp, hidden)
    case _ => true
  }

  /** What is hidden behind a block: a stored word is not. */
  ghost function HiddenAfter(b: Build, c: Code, k: Block, s: State, hidden: iset<u16>): iset<u16> {
    var x := CtxOf(c.lay, Names(b.env, c.scope), s);
    match k
    case StoreB(p, _) => hidden - WordAt(PlaceAddr(p, x))
    case StoreResult(y) => hidden - WordAt(PlaceAddr(PlainPlace(y), x))
    case StoreArg(y, _) => hidden - WordAt(PlaceAddr(PlainPlace(y), x))
    case _ => hidden
  }

  /** The same body, layout and locals, at its place in either build. */
  predicate SameCode(c: Code, d: Code) {
    c.lay == d.lay && c.slots == d.slots && c.body == d.body
  }

  lemma CtxsAlike(c: Code, d: Code, names: Names, names': Names, s: State, t: State, hidden: iset<u16>)
    requires SameCode(c, d) && Alike(s, t, hidden)
    ensures CtxAlike(CtxOf(c.lay, names, s), CtxOf(d.lay, names', t), s.regs.sp, hidden)
  {
  }

  lemma QuietAlike(s: State, s': State, t: State, t': State, reg: nat, hidden: iset<u16>)
    requires Alike(s, s', hidden) && Quiet(s, t, reg) && Quiet(s', t', reg) && t.regs.cf == t'.regs.cf
    requires reg < 4 ==> t.regs.g[reg] == t'.regs.g[reg]
    ensures Alike(t, t', hidden)
  {
    forall a: u16 | t.regs.sp <= a && a !in hidden ensures t.mem[a] == t'.mem[a] {
      assert t.mem[a] == s.mem[a] && t'.mem[a] == s'.mem[a];
    }
  }

  lemma QuietCtx(c: Code, names: Names, s: State, t: State, reg: nat, hidden: iset<u16>)
    requires Quiet(s, t, reg)
    ensures CtxAlike(CtxOf(c.lay, names, s), CtxOf(c.lay, names, t), s.regs.sp, hidden)
  {
    forall a: u16 | s.regs.sp <= a && a !in hidden ensures s.mem[a] == t.mem[a] {
    }
  }

  /** Two runs of a block other than a call, one in each build. */
  lemma BlockTwice(b: Build, c: Code, b': Build, c': Code, i: nat, s: State, t: State, s': State, t': State,
                   hidden: iset<u16>, keep: iset<u16>, keep': iset<u16>)
    requires CodeThere(b, c) && CodeThere(b', c') && SameCode(c, c') && i < |c.body| && !c.body[i].CallB?
    requires Stands(s, Pos(b, c, i)) && Stands(s', Pos(b', c', i))
    requires Allowed(b, c, c.body[i], s, keep) && Allowed(b', c', c.body[i], s', keep')
    requires Run(b.img, s, |BlockCode(b.o, c.lay, c.body[i])|) == Next(t)
    requires Run(b'.img, s', |BlockCode(b'.o, c'.lay, c.body[i])|) == Next(t')
    requires Alike(s, s', hidden) && BlockSees(b, c, c.body[i], s, hidden)
    requires c.body[i].JmpB? ==> exists j, j' :: Follows(c, s, i, j) && Follows(c', s', i, j')
    ensures Alike(t, t', HiddenAfter(b, c, c.body[i], s, hidden))
    ensures Show(BlockMark(c.body[i]), t) == Show(BlockMark(c.body[i]), t')
  {
    hide *;
    SameLay(c, c');
    BlockThere(b, c, i);
    BlockThere(b', c', i);
    var k, k' := Pos(b, c, i), Pos(b', c', i);
    var blk := c.body[i];
    match blk
    case StoreB(p, v) => StoreBTwice(b, c, b', c', p, v, k, k', s, t, s', t', hidden, keep, keep');
    case StoreReturn(v) => ReturnTwice(b, c, b', c', v, k, k', s, t, s', t', hidden, keep, keep');
    case StoreResult(x) => ResultTwice(b, c, b', c', x, k, k', s, t, s', t', hidden, keep, keep');
    case StoreArg(x, n) => ArgTwice(b, c, b', c', x, n, k, k', s, t, s', t', hidden, keep, keep');
    case CmpB(l, r) => CmpTwice(b, c, b', c', l, r, k, k', s, t, s', t', hidden, keep, keep');
    case JmpB(_, _) => JumpTwice(b, c, b', c', i, s, t, s', t', hidden, keep);
    case LabelB(name) => LabelTwice(b, c, b', c', name, s, t, s', t', hidden);
    case CallB(_, _) =>
    case _ => NotAllowed(b, c, blk, s, keep);
  }

  lemma SameLay(c: Code, d: Code)
    requires SameCode(c, d)
    ensures c.body == d.body && c.lay == d.lay
  {
  }

  lemma NotAllowed(b: Build, c: Code, k: Block, s: State, keep: iset<u16>)
    requires k.Preamble? || k.Epilogue? || k.LocalB?
    ensures !Allowed(b, c, k, s, keep)
  {
  }

  lemma LabelTwice(b: Build, c: Code, b': Build, c': Code, name: string, s: State, t: State, s': State, t': State,
                   hidden: iset<u16>)
    requires Run(b.img, s, |BlockCode(b.o, c.lay, LabelB(name))|) == Next(t)
    requires Run(b'.img, s', |BlockCode(b'.o, c'.lay, LabelB(name))|) == Next(t') && Alike(s, s', hidden)
    ensures Alike(t, t', HiddenAfter(b, c, LabelB(name), s, hidden))
    ensures Show(BlockMark(LabelB(name)), t) == Show(BlockMark(LabelB(name)), t')
  {
    hide Alike;
    AtRest(b.img, s);
    AtRest(b'.img, s');
  }

  lemma ReturnTwice(b: Build, c: Code, b': Build, c': Code, v: Value, k: nat, k': nat,
                    s: State, t: State, s': State, t': State, hidden: iset<u16>, keep: iset<u16>, keep': iset<u16>)
    requires SameCode(c, c') && Stands(s, k) && Stands(s', k') && Alike(s, s', hidden)
    requires Allowed(b, c, StoreReturn(v), s, keep) && Allowed(b', c', StoreReturn(v), s', keep')
    requires Loaded(Lines(BlockCode(b.o, c.lay, StoreReturn(v))), k, b.img, Names(b.env, c.scope))
    requires Loaded(Lines(BlockCode(b'.o, c'.lay, StoreReturn(v))), k', b'.img, Names(b'.env, c'.scope))
    requires Run(b.img, s, |BlockCode(b.o, c.lay, StoreReturn(v))|) == Next(t)
    requires Run(b'.img, s', |BlockCode(b'.o, c'.lay, StoreReturn(v))|) == Next(t')
    requires BlockSees(b, c, StoreReturn(v), s, hidden)
    ensures Alike(t, t', HiddenAfter(b, c, StoreReturn(v), s, hidden))
    ensures Show(BlockMark(StoreReturn(v)), t) == Show(BlockMark(StoreReturn(v)), t')
  {
    hide Run, Loaded, Lines, Alike, Sees, EmitValue, CanEval, Eval, SameCode, CtxAlike, Quiet;
    var names, names' := Names(b.env, c.scope), Names(b'.env, c'.scope);
    ValueEffect(b, c, 0, v, k, s, t);
    ValueEffect(b', c', 0, v, k', s', t');
    CtxsAlike(c, c', names, names', s, s', hidden);
    EvalAlike(v, CtxOf(c.lay, names, s), CtxOf(c'.lay, names', s'), s.regs.sp, hidden);
    AlikeFlag(s, s', hidden);
    QuietAlike(s, s', t, t', 0, hidden);
  }

  lemma ResultTwice(b: Build, c: Code, b': Build, c': Code, x: Var, k: nat, k': nat,
                    s: State, t: State, s': State, t': State, hidden: iset<u16>, keep: iset<u16>, keep': iset<u16>)
    requires SameCode(c, c') && Stands(s, k) && Stands(s', k') && Alike(s, s', hidden)
    requires Allowed(b, c, StoreResult(x), s, keep) && Allowed(b', c', StoreResult(x), s', keep')
    requires Loaded(Lines(BlockCode(b.o, c.lay, StoreResult(x))), k, b.img, Names(b.env, c.scope))
    requires Loaded(Lines(BlockCode(b'.o, c'.lay, StoreResult(x))), k', b'.img, Names(b'.env, c'.scope))
    requires Run(b.img, s, |BlockCode(b.o, c.lay, StoreResult(x))|) == Next(t)
    requires Run(b'.img, s', |BlockCode(b'.o, c'.lay, StoreResult(x))|) == Next(t')
    ensures Alike(t, t', HiddenAfter(b, c, StoreResult(x), s, hidden))
    ensures Show(BlockMark(StoreResult(x)), t) == Show(BlockMark(StoreResult(x)), t')
  {
    hide Run, Loaded, Lines, Alike, EmitStore, CanStore, PlaceAddr, SameCode, WordAt;
    StoreRegTwice(b, c, b', c', 0, x, k, k', s, t, s', t', hidden);
  }

  lemma ArgTwice(b: Build, c: Code, b': Build, c': Code, x: Var, n: nat, k: nat, k': nat,
                 s: State, t: State, s': State, t': State, hidden: iset<u16>, keep: iset<u16>, keep': iset<u16>)
    requires SameCode(c, c') && Stands(s, k) && Stands(s', k') && Alike(s, s', hidden)
    requires Allowed(b, c, StoreArg(x, n), s, keep) && Allowed(b', c', StoreArg(x, n), s', keep')
    requires Loaded(Lines(BlockCode(b.o, c.lay, StoreArg(x, n))), k, b.img, Names(b.env, c.scope))
    requires Loaded(Lines(BlockCode(b'.o, c'.lay, StoreArg(x, n))), k', b'.img, Names(b'.env, c'.scope))
    requires Run(b.img, s, |BlockCode(b.o, c.lay, StoreArg(x, n))|) == Next(t)
    requires Run(b'.img, s', |BlockCode(b'.o, c'.lay, StoreArg(x, n))|) == Next(t')
    requires BlockSees(b, c, StoreArg(x, n), s, hidden)
    ensures Alike(t, t', HiddenAfter(b, c, StoreArg(x, n), s, hidden))
    ensures Show(BlockMark(StoreArg(x, n)), t) == Show(BlockMark(StoreArg(x, n)), t')
  {
    hide Run, Loaded, Lines, Alike, EmitStore, CanStore, PlaceAddr, SameCode, WordAt;
    StoreRegTwice(b, c, b', c', ArgReg(n), x, k, k', s, t, s', t', hidden);
  }

  lemma AlikeFlag(s: State, t: State, hidden: iset<u16>)
    requires Alike(s, t, hidden)
    ensures s.regs.cf == t.regs.cf && s.regs.sp == t.regs.sp && s.regs.bp == t.regs.bp
    ensures forall i :: 0 <= i < 4 ==> s.regs.g[i] == t.regs.g[i]
  {
  }

  lemma StoreBTwice(b: Build, c: Code, b': Build, c': Code, p: Place, v: Value, k: nat, k': nat,
                    s: State, t: State, s': State, t': State, hidden: iset<u16>, keep: iset<u16>, keep': iset<u16>)
    requires SameCode(c, c') && Stands(s, k) && Stands(s', k') && Alike(s, s', hidden)
    requires Allowed(b, c, StoreB(p, v), s, keep) && Allowed(b', c', StoreB(p, v), s', keep')
    requires Loaded(Lines(BlockCode(b.o, c.lay, StoreB(p, v))), k, b.img, Names(b.env, c.scope))
    requires Loaded(Lines(BlockCode(b'.o, c'.lay, StoreB(p, v))), k', b'.img, Names(b'.env, c'.scope))
    requires Run(b.img, s, |BlockCode(b.o, c.lay, StoreB(p, v))|) == Next(t)
    requires Run(b'.img, s', |BlockCode(b'.o, c'.lay, StoreB(p, v))|) == Next(t')
    requires BlockSees(b, c, StoreB(p, v), s, hidden)
    ensures Alike(t, t', HiddenAfter(b, c, StoreB(p, v), s, hidden))
    ensures Show(BlockMark(StoreB(p, v)), t) == Show(BlockMark(StoreB(p, v)), t')
  {
    hide Run, Loaded, Lines, Alike, Sees, SeesPlace, BlockCode, Allowed, Eval, PlaceAddr, Wrote, Quiet, SameCode,
         WordAt, CtxAlike;
    var names, names' := Names(b.env, c.scope), Names(b'.env, c'.scope);
    var x, x' := CtxOf(c.lay, names, s), CtxOf(c'.lay, names', s');
    var sp := s.regs.sp;
    var m := StoreBEffect(b, c, p, v, k, s, t, keep);
    var m' := StoreBEffect(b', c', p, v, k', s', t', keep');
    CtxsAlike(c, c', names, names', s, s', hidden);
    EvalAlike(v, x, x', sp, hidden);
    AlikeFlag(s, s', hidden);
    QuietAlike(s, s', m, m', 5, hidden);
    QuietCtx(c, names, s, m, 5, hidden);
    PlaceAlike(p, x, CtxOf(c.lay, names, m), sp, hidden);
    CtxsChain(c, c', names, names', s, s', m', hidden);
    PlaceAlike(p, x, CtxOf(c'.lay, names', m'), sp, hidden);
    WroteAlike(m, m', t, t', PlaceAddr(p, x), Eval(v, x), hidden);
  }

  lemma CtxsChain(c: Code, d: Code, names: Names, names': Names, s: State, t: State, m: State, hidden: iset<u16>)
    requires SameCode(c, d) && Alike(s, t, hidden) && Quiet(t, m, 5)
    ensures CtxAlike(CtxOf(c.lay, names, s), CtxOf(d.lay, names', m), s.regs.sp, hidden)
  {
    forall a: u16 | s.regs.sp <= a && a !in hidden ensures s.mem[a] == m.mem[a] {
      assert t.mem[a] == m.mem[a];
    }
  }

  lemma StoreRegTwice(b: Build, c: Code, b': Build, c': Code, reg: GprIndex, x: Var, k: nat, k': nat,
                      s: State, t: State, s': State, t': State, hidden: iset<u16>)
    requires SameCode(c, c') && Stands(s, k) && Stands(s', k') && Alike(s, s', hidden) && reg < 4
    requires CanStore(b.o, c.lay, Names(b.env, c.scope), reg, PlainPlace(x), s, b.img.lim)
    requires CanStore(b'.o, c'.lay, Names(b'.env, c'.scope), reg, PlainPlace(x), s', b'.img.lim)
    requires Loaded(Lines(EmitStore(b.o, c.lay, reg, R4, PlainPlace(x))), k, b.img, Names(b.env, c.scope))
    requires Loaded(Lines(EmitStore(b'.o, c'.lay, reg, R4, PlainPlace(x))), k', b'.img, Names(b'.env, c'.scope))
    requires Run(b.img, s, |EmitStore(b.o, c.lay, reg, R4, PlainPlace(x))|) == Next(t)
    requires Run(b'.img, s', |EmitStore(b'.o, c'.lay, reg, R4, PlainPlace(x))|) == Next(t')
    ensures Alike(t, t', hidden - WordAt(PlaceAddr(PlainPlace(x), CtxOf(c.lay, Names(b.env, c.scope), s))))
    ensures t.regs.g[reg] == t'.regs.g[reg]
  {
    hide Run, Loaded, Lines, Alike, EmitStore, CanStore, PlaceAddr, Wrote, SameCode, WordAt, CtxAlike;
    var names, names' := Names(b.env, c.scope), Names(b'.env, c'.scope);
    StoreEffect(b, c, reg, PlainPlace(x), k, s, t);
    StoreEffect(b', c', reg, PlainPlace(x), k', s', t');
    CtxsAlike(c, c', names, names', s, s', hidden);
    PlaceAlike(PlainPlace(x), CtxOf(c.lay, names, s), CtxOf(c'.lay, names', s'), s.regs.sp, hidden);
    AlikeFlag(s, s', hidden);
    WroteAlike(s, s', t, t', PlaceAddr(PlainPlace(x), CtxOf(c.lay, names, s)), s.regs.g[reg], hidden);
  }

  lemma CmpEffect(b: Build, c: Code, l: Value, r: Value, k: nat, s: State, t: State)
    requires CanCmp(b.o, c.lay, Names(b.env, c.scope), l, r, s, b.img.lim) && Stands(s, k)
    requires Loaded(Lines(EmitCmp(b.o, c.lay, l, r)), k, b.img, Names(b.env, c.scope))
    requires Run(b.img, s, |EmitCmp(b.o, c.lay, l, r)|) == Next(t)
    ensures Quiet(s, t, 5)
    ensures var x := CtxOf(c.lay, Names(b.env, c.scope), s); t.regs.cf == (Eval(l, x) == Eval(r, x))
  {
    hide Loaded, Lines, EmitCmp, Run, CanCmp, Eval, Runs;
    var x := CmpCorrect(b.o, c.lay, Names(b.env, c.scope), l, r, s, b.img.lim);
    StepsAre(b, Names(b.env, c.scope), EmitCmp(b.o, c.lay, l, r), k, s, x);
  }

  lemma CmpTwice(b: Build, c: Code, b': Build, c': Code, l: Value, r: Value, k: nat, k': nat,
                 s: State, t: State, s': State, t': State, hidden: iset<u16>, keep: iset<u16>, keep': iset<u16>)
    requires SameCode(c, c') && Stands(s, k) && Stands(s', k') && Alike(s, s', hidden)
    requires Allowed(b, c, CmpB(l, r), s, keep) && Allowed(b', c', CmpB(l, r), s', keep')
    requires Loaded(Lines(BlockCode(b.o, c.lay, CmpB(l, r))), k, b.img, Names(b.env, c.scope))
    requires Loaded(Lines(BlockCode(b'.o, c'.lay, CmpB(l, r))), k', b'.img, Names(b'.env, c'.scope))
    requires Run(b.img, s, |BlockCode(b.o, c.lay, CmpB(l, r))|) == Next(t)
    requires Run(b'.img, s', |BlockCode(b'.o, c'.lay, CmpB(l, r))|) == Next(t')
    requires BlockSees(b, c, CmpB(l, r), s, hidden)
    ensures Alike(t, t', HiddenAfter(b, c, CmpB(l, r), s, hidden))
    ensures Show(BlockMark(CmpB(l, r)), t) == Show(BlockMark(CmpB(l, r)), t')
  {
    hide Run, Loaded, Lines, Alike, EmitCmp, CanCmp, Eval, SameCode, CtxAlike, Quiet, Sees;
    var names, names' := Names(b.env, c.scope), Names(b'.env, c'.scope);
    var x, x' := CtxOf(c.lay, names, s), CtxOf(c'.lay, names', s');
    CmpEffect(b, c, l, r, k, s, t);
    CmpEffect(b', c', l, r, k', s', t');
    CtxsAlike(c, c', names, names', s, s', hidden);
    EvalAlike(l, x, x', s.regs.sp, hidden);
    EvalAlike(r, x, x', s.regs.sp, hidden);
    QuietAlike(s, s', t, t', 5, hidden);
  }

  lemma JumpTwice(b: Build, c: Code, b': Build, c': Code, i: nat, s: State, t: State, s': State, t': State,
                  hidden: iset<u16>, keep: iset<u16>)
    requires CodeThere(b, c) && CodeThere(b', c') && SameCode(c, c') && i < |c.body| && c.body[i].JmpB?
    requires Stands(s, Pos(b, c, i)) && Stands(s', Pos(b', c', i)) && Alike(s, s', hidden)
    requires Run(b.img, s, |BlockCode(b.o, c.lay, c.body[i])|) == Next(t)
    requires Run(b'.img, s', |BlockCode(b'.o, c'.lay, c.body[i])|) == Next(t')
    requires exists j, j' :: Follows(c, s, i, j) && Follows(c', s', i, j')
    ensures Alike(t, t', HiddenAfter(b, c, c.body[i], s, hidden))
    ensures Show(BlockMark(c.body[i]), t) == Show(BlockMark(c.body[i]), t')
  {
    hide CodeThere, Pos, Run, BlockCode, Follows;
    var j, j' :| Follows(c, s, i, j) && Follows(c', s', i, j');
    JumpSteady(b, c, i, j, s, t, keep);
    JumpSteady(b', c', i, j', s', t', keep);
  }

  // Calls ------------------------------------------------------------------------------------------

  /** The stack bytes of a new activation: its locals, the saved words, the return address. */
  ghost function NewFrame(sp: u16, size: nat): iset<u16> {
    iset a: u16 | InFrameOf(a, sp, size)
  }

  predicate InFrameOf(a: u16, sp: u16, size: nat) {
    sp - 10 - size <= a < sp + 2
  }

  /** Arguments and call instruction: the callee starts with every argument in its register,
      and of what the caller sees only the return address is new. */
  lemma CallEffect(b: Build, c: Code, i: nat, s: State, entry: State, keep: iset<u16>)
    requires CodeThere(b, c) && i < |c.body| && c.body[i].CallB? && Stands(s, Pos(b, c, i))
    requires Allowed(b, c, c.body[i], s, keep) && Run(b.img, s, |BlockCode(b.o, c.lay, c.body[i])|) == Next(entry)
    ensures entry.regs.sp == s.regs.sp - 2 && entry.regs.bp == s.regs.bp && entry.regs.cf == s.regs.cf
    ensures SameAbove(s.mem, entry.mem, s.regs.sp)
    ensures forall n :: 0 <= n < |c.body[i].args| && n < 4 ==>
              entry.regs.g[n] == Eval(c.body[i].args[n], CtxOf(c.lay, Names(b.env, c.scope), s))
    ensures |c.body[i].args| <= 4 && forall n :: |c.body[i].args| <= n < 4 ==> entry.regs.g[n] == s.regs.g[n]
  {
    hide CodeThere, Pos, Run, Loaded, EmitArgs, Lines, Resolve, Exec, Runs, Eval, Safe, Sound;
    var names, k, lim := Names(b.env, c.scope), Pos(b, c, i), b.img.lim;
    var code, call := EmitArgs(b.o, c.lay, c.body[i].args), Call(SSym(c.body[i].f));
    BlockThere(b, c, i);
    FirstPart(code, [call], k, b.img, names);
    var s1 := ArgsCorrect(b.o, c.lay, names, c.body[i].args, s, lim);
    RunsIp(names, code, s, s1, lim);
    StepsAre(b, names, code, k, s, s1);
    RunAppend(b.img, s, s1, |code|, 1);
    OneStep(b.img, s1, entry);
    CodeFits(b, c);
    CallKeeps(c.body[i].f, names, s1, entry, lim);
  }

  lemma CallKeeps(f: string, names: Names, s: State, t: State, lim: int)
    requires 0 <= lim <= s.regs.sp - 2 && Exec(Resolve(names, Call(SSym(f))), s, lim) == Next(t)
    ensures t.regs.sp == s.regs.sp - 2 && t.regs.bp == s.regs.bp && t.regs.cf == s.regs.cf && t.regs.g == s.regs.g
    ensures SameOutside(s.mem, t.mem, s.regs.sp - 2, s.regs.sp)
  {
  }

  /** Both callees are entered alike; what their frames hold is hidden as yet. */
  lemma CallTwice(b: Build, c: Code, b': Build, c': Code, i: nat, s: State, e: State, s': State, e': State, size: nat,
                  hidden: iset<u16>, keep: iset<u16>, keep': iset<u16>)
    requires CodeThere(b, c) && CodeThere(b', c') && SameCode(c, c') && i < |c.body| && c.body[i].CallB?
    requires Stands(s, Pos(b, c, i)) && Stands(s', Pos(b', c', i))
    requires Allowed(b, c, c.body[i], s, keep) && Allowed(b', c', c.body[i], s', keep')
    requires Run(b.img, s, |BlockCode(b.o, c.lay, c.body[i])|) == Next(e)
    requires Run(b'.img, s', |BlockCode(b'.o, c'.lay, c.body[i])|) == Next(e')
    requires Alike(s, s', hidden) && BlockSees(b, c, c.body[i], s, hidden)
    ensures Alike(e, e', hidden + NewFrame(e.regs.sp, size)) && |c.body[i].args| <= 4
  {
    hide CodeThere, Pos, Run, BlockCode, Allowed, Eval, Sees;
    var names, names' := Names(b.env, c.scope), Names(b'.env, c'.scope);
    var x, x' := CtxOf(c.lay, names, s), CtxOf(c'.lay, names', s');
    CallEffect(b, c, i, s, e, keep);
    CallEffect(b', c', i, s', e', keep');
    CtxsAlike(c, c', names, names', s, s', hidden);
    forall n | 0 <= n < 4 ensures e.regs.g[n] == e'.regs.g[n] {
      if n < |c.body[i].args| {
        EvalAlike(c.body[i].args[n], x, x', s.regs.sp, hidden);
      }
    }
    forall a: u16 | e.regs.sp <= a && a !in hidden + NewFrame(e.regs.sp, size) ensures e.mem[a] == e'.mem[a] {
      assert !InFrameOf(a, e.regs.sp, size);
      assert e.mem[a] == s.mem[a] && e'.mem[a] == s'.mem[a];
    }
  }

  // Whole runs -----------------------------------------------------------------------------------------

  /** The events of a walk: what the blocks' marks show, the callees' events in between. */
  function WalkEvents(c: Code, w: Walk): seq<Event>
    decreases w
  {
    match w
    case Leave(_) => []
    case Step(s, i, call, rest) =>
      (if i >= |c.body| then []
       else if !c.body[i].CallB? then Show(BlockMark(c.body[i]), rest.s)
       else
         match call
         case Emitted(fr) => Show(BlockMark(c.body[i]), fr.entry) + WalkEvents(fr.code, fr.walk)
         case Foreign(entry, _) => Show(BlockMark(c.body[i]), entry)
         case NoCall => []) +
      WalkEvents(c, rest)
  }

  /** What is hidden at the end of a walk. */
  ghost function HiddenEnd(b: Build, c: Code, w: Walk, hidden: iset<u16>): iset<u16>
    decreases w
  {
    match w
    case Leave(_) => hidden
    case Step(s, i, call, rest) =>
      HiddenEnd(b, c, rest,
                if i >= |c.body| then hidden
                else if !c.body[i].CallB? then HiddenAfter(b, c, c.body[i], s, hidden)
                else
                  match call
                  case Emitted(fr) => FrameHidden(b, fr, hidden)
                  case _ => hidden)
  }

  ghost function FrameHidden(b: Build, fr: Frame, hidden: iset<u16>): iset<u16>
    decreases fr
  {
    HiddenEnd(b, fr.code, fr.walk, hidden + NewFrame(fr.entry.regs.sp, FrameSize(fr.code.slots)))
  }

  predicate LabelsOnce(c: Code) {
    forall i, j :: 0 <= i < j < |c.body| && c.body[i].LabelB? && c.body[j].LabelB? ==> c.body[i] != c.body[j]
  }

  /** The two walks are of the same code and call the same functions; all that the first one's
      blocks look at can be seen. Foreign callees leave both builds alike. */
  ghost predicate Together(b: Build, c: Code, c': Code, w: Walk, w': Walk, hidden: iset<u16>)
    decreases w
  {
    match w
    case Leave(_) => true
    case Step(s, i, call, rest) =>
      i < |c.body| ==>
        && BlockSees(b, c, c.body[i], s, hidden)
        && (w'.Step? ==>
              if !c.body[i].CallB? then Together(b, c, c', rest, w'.rest, HiddenAfter(b, c, c.body[i], s, hidden))
              else
                match call
                case Emitted(fr) =>
                  && w'.call.Emitted? && FramesTogether(b, fr, w'.call.frame, hidden)
                  && Together(b, c, c', rest, w'.rest, FrameHidden(b, fr, hidden))
                case Foreign(_, exit) =>
                  && w'.call.Foreign? && Alike(exit, w'.call.exit, hidden) && Together(b, c, c', rest, w'.rest, hidden)
                case NoCall => true)
  }

  ghost predicate FramesTogether(b: Build, fr: Frame, fr': Frame, hidden: iset<u16>)
    decreases fr
  {
    && SameCode(fr.code, fr'.code) && LabelsOnce(fr.code)
    && Together(b, fr.code, fr'.code, fr.walk, fr'.walk,
                hidden + NewFrame(fr.entry.regs.sp, FrameSize(fr.code.slots)))
  }

  lemma FollowsOnce(c: Code, c': Code, s: State, s': State, i: nat, j: nat, j': nat)
    requires SameCode(c, c') && LabelsOnce(c) && i < |c.body| && s.regs.cf == s'.regs.cf
    requires Follows(c, s, i, j) && Follows(c', s', i, j')
    ensures j == j'
  {
  }

  lemma LabelsShared(c: Code, c': Code)
    requires SameCode(c, c') && LabelsOnce(c)
    ensures LabelsOnce(c')
  {
  }

  /** What both walks need at a boundary. */
  ghost predicate AtBoundary(b: Build, c: Code, w: Walk, keep: iset<u16>) {
    && CodeThere(b, c) && WalkOk(b, c, w, keep) && AllAbove(keep, w.s.regs.sp)
    && BlockOf(c, w) <= |c.body| && Stands(w.s, Pos(b, c, BlockOf(c, w)))
  }

  /**
   Two builds, block by block: whatever the switches, both walks go through the same blocks,
   show the same events, and end alike.
   */
  lemma {:induction false} WalksAgree(b: Build, c: Code, w: Walk, keep: iset<u16>,
                                      b': Build, c': Code, w': Walk, keep': iset<u16>, hidden: iset<u16>)
    requires AtBoundary(b, c, w, keep) && AtBoundary(b', c', w', keep')
    requires SameCode(c, c') && LabelsOnce(c) && BlockOf(c, w) == BlockOf(c', w')
    requires Alike(w.s, w'.s, hidden) && Together(b, c, c', w, w', hidden)
    ensures WalkEvents(c, w) == WalkEvents(c', w')
    ensures Alike(Last(w), Last(w'), HiddenEnd(b, c, w, hidden))
    decreases w
  {
    hide *;
    SameLay(c, c');
    if w.Leave? {
      BothLeave(b, c, w, keep, b', c', w', keep', hidden);
    } else {
      BothStep(b, c, w, keep, b', c', w', keep');
      if !c.body[w.i].CallB? {
        StepTwice(b, c, w, keep, b', c', w', keep', hidden);
        var left := HiddenAfter(b, c, c.body[w.i], w.s, hidden);
        WalksAgree(b, c, w.rest, keep, b', c', w'.rest, keep', left);
        StepEvents(b, c, w, c', w', hidden);
      } else if w.call.Emitted? {
        EmittedTwice(b, c, w, keep, b', c', w', keep', hidden);
        var left := FrameHidden(b, w.call.frame, hidden);
        WalksAgree(b, c, w.rest, keep, b', c', w'.rest, keep', left);
        EmittedEvents(b, c, w, c', w', hidden);
      } else {
        ForeignTwice(b, c, w, keep, b', c', w', keep', hidden);
        WalksAgree(b, c, w.rest, keep, b', c', w'.rest, keep', hidden);
        ForeignEvents(b, c, w, c', w', hidden);
      }
    }
  }

  lemma BothLeave(b: Build, c: Code, w: Walk, keep: iset<u16>, b': Build, c': Code, w': Walk, keep': iset<u16>,
                  hidden: iset<u16>)
    requires AtBoundary(b', c', w', keep') && SameCode(c, c') && BlockOf(c, w) == BlockOf(c', w') && w.Leave?
    requires Alike(w.s, w'.s, hidden)
    ensures w'.Leave? && WalkEvents(c, w) == WalkEvents(c', w')
    ensures Alike(Last(w), Last(w'), HiddenEnd(b, c, w, hidden))
  {
    hide CodeThere, Pos, Allowed, Follows, FrameOk, Alike, AllAbove;
  }

  /** Both walks run the same block. */
  lemma BothStep(b: Build, c: Code, w: Walk, keep: iset<u16>, b': Build, c': Code, w': Walk, keep': iset<u16>)
    requires AtBoundary(b, c, w, keep) && AtBoundary(b', c', w', keep') && SameCode(c, c')
    requires w.Step? && BlockOf(c, w) == BlockOf(c', w')
    ensures w'.Step? && w'.i == w.i < |c.body| && c'.body == c.body
    ensures c.body[w.i].CallB? ==> !w.call.NoCall? && !w'.call.NoCall?
  {
    hide CodeThere, Pos, Allowed, Follows, FrameOk, AllAbove, Run, BlockCode;
  }

  /** After one block of a walk the next boundary is in order. */
  lemma NextBoundary(b: Build, c: Code, w: Walk, keep: iset<u16>)
    requires AtBoundary(b, c, w, keep) && w.Step?
    ensures AtBoundary(b, c, w.rest, keep)
  {
    hide CodeThere, Pos, Run, Reaches, AllAbove, Spared, Allowed, Follows, BlockCode, FrameOk, FrameLevel, ComesBack;
    StepKeeps(b, c, w, w.s.regs.bp, w.s.regs.sp, keep);
  }

  lemma SamePlace(b: Build, c: Code, w: Walk, keep: iset<u16>, b': Build, c': Code, w': Walk, keep': iset<u16>,
                  hidden: iset<u16>)
    requires AtBoundary(b, c, w, keep) && AtBoundary(b', c', w', keep') && SameCode(c, c') && LabelsOnce(c)
    requires w.Step? && w'.Step? && w.i == w'.i && Alike(w.s, w'.s, hidden)
    ensures BlockOf(c, w.rest) == BlockOf(c', w'.rest)
    ensures exists j, j' :: Follows(c, w.s, w.i, j) && Follows(c', w'.s, w.i, j')
  {
    hide CodeThere, Pos, Run, Reaches, AllAbove, Allowed, BlockCode, FrameOk, Follows, LabelsOnce, SameCode;
    AlikeFlag(w.s, w'.s, hidden);
    SameLay(c, c');
    FollowsOnce(c, c', w.s, w'.s, w.i, BlockOf(c, w.rest), BlockOf(c', w'.rest));
  }

  lemma StepTwice(b: Build, c: Code, w: Walk, keep: iset<u16>, b': Build, c': Code, w': Walk, keep': iset<u16>,
                  hidden: iset<u16>)
    requires AtBoundary(b, c, w, keep) && AtBoundary(b', c', w', keep') && SameCode(c, c') && LabelsOnce(c)
    requires w.Step? && w'.Step? && w.i == w'.i < |c.body| && !c.body[w.i].CallB?
    requires Alike(w.s, w'.s, hidden) && Together(b, c, c', w, w', hidden)
    ensures var left := HiddenAfter(b, c, c.body[w.i], w.s, hidden);
            && AtBoundary(b, c, w.rest, keep) && AtBoundary(b', c', w'.rest, keep')
            && BlockOf(c, w.rest) == BlockOf(c', w'.rest) && Alike(w.rest.s, w'.rest.s, left)
            && Together(b, c, c', w.rest, w'.rest, left)
    ensures Show(BlockMark(c.body[w.i]), w.rest.s) == Show(BlockMark(c.body[w.i]), w'.rest.s)
  {
    hide CodeThere, Pos, Run, Reaches, AllAbove, Allowed, BlockCode, FrameOk, Follows, LabelsOnce, SameCode, Alike,
         BlockSees,
         HiddenAfter, BlockMark, Show;
    NextBoundary(b, c, w, keep);
    NextBoundary(b', c', w', keep');
    SameLay(c, c');
    SamePlace(b, c, w, keep, b', c', w', keep', hidden);
    BlockTwice(b, c, b', c', w.i, w.s, w.rest.s, w'.s, w'.rest.s, hidden, keep, keep');
  }

  lemma StepEvents(b: Build, c: Code, w: Walk, c': Code, w': Walk, hidden: iset<u16>)
    requires w.Step? && w'.Step? && w.i == w'.i < |c.body| && c'.body == c.body && !c.body[w.i].CallB?
    requires WalkEvents(c, w.rest) == WalkEvents(c', w'.rest)
    requires Show(BlockMark(c.body[w.i]), w.rest.s) == Show(BlockMark(c.body[w.i]), w'.rest.s)
    ensures WalkEvents(c, w) == WalkEvents(c', w') && Last(w) == Last(w.rest) && Last(w') == Last(w'.rest)
    ensures HiddenEnd(b, c, w, hidden) == HiddenEnd(b, c, w.rest, HiddenAfter(b, c, c.body[w.i], w.s, hidden))
  {
    hide BlockMark, Show, HiddenAfter;
  }

  lemma ForeignTwice(b: Build, c: Code, w: Walk, keep: iset<u16>, b': Build, c': Code, w': Walk, keep': iset<u16>,
                     hidden: iset<u16>)
    requires AtBoundary(b, c, w, keep) && AtBoundary(b', c', w', keep') && SameCode(c, c') && LabelsOnce(c)
    requires w.Step? && w'.Step? && w.i == w'.i < |c.body| && c.body[w.i].CallB? && w.call.Foreign?
    requires Alike(w.s, w'.s, hidden) && Together(b, c, c', w, w', hidden)
    ensures w'.call.Foreign?
    ensures AtBoundary(b, c, w.rest, keep) && AtBoundary(b', c', w'.rest, keep')
    ensures BlockOf(c, w.rest) == BlockOf(c', w'.rest) && Alike(w.rest.s, w'.rest.s, hidden)
    ensures Together(b, c, c', w.rest, w'.rest, hidden)
    ensures Show(BlockMark(c.body[w.i]), w.call.entry) == Show(BlockMark(c.body[w.i]), w'.call.entry)
  {
    hide CodeThere, Pos, Run, Reaches, AllAbove, Allowed, BlockCode, FrameOk, Follows, LabelsOnce, SameCode, Alike,
         BlockSees, Spared,
         ComesBack;
    NextBoundary(b, c, w, keep);
    NextBoundary(b', c', w', keep');
    SameLay(c, c');
    SamePlace(b, c, w, keep, b', c', w', keep', hidden);
    CallTwice(b, c, b', c', w.i, w.s, w.call.entry, w'.s, w'.call.entry, 0, hidden, keep, keep');
    CallShown(c.body[w.i], w.call.entry, w'.call.entry, hidden + NewFrame(w.call.entry.regs.sp, 0));
  }

  lemma CallShown(k: Block, e: State, e': State, hidden: iset<u16>)
    requires k.CallB? && |k.args| <= 4 && Alike(e, e', hidden)
    ensures Show(BlockMark(k), e) == Show(BlockMark(k), e')
  {
    assert e.regs.g[..|k.args|] == e'.regs.g[..|k.args|];
  }

  lemma ForeignEvents(b: Build, c: Code, w: Walk, c': Code, w': Walk, hidden: iset<u16>)
    requires w.Step? && w'.Step? && w.i == w'.i < |c.body| && c'.body == c.body && c.body[w.i].CallB?
    requires w.call.Foreign? && w'.call.Foreign? && WalkEvents(c, w.rest) == WalkEvents(c', w'.rest)
    requires Show(BlockMark(c.body[w.i]), w.call.entry) == Show(BlockMark(c.body[w.i]), w'.call.entry)
    ensures WalkEvents(c, w) == WalkEvents(c', w') && Last(w) == Last(w.rest) && Last(w') == Last(w'.rest)
    ensures HiddenEnd(b, c, w, hidden) == HiddenEnd(b, c, w.rest, hidden)
  {
    hide BlockMark, Show;
  }

  /** A call of emitted code in both builds. */
  lemma {:induction false} EmittedTwice(b: Build, c: Code, w: Walk, keep: iset<u16>,
                                        b': Build, c': Code, w': Walk, keep': iset<u16>, hidden: iset<u16>)
    requires AtBoundary(b, c, w, keep) && AtBoundary(b', c', w', keep') && SameCode(c, c') && LabelsOnce(c)
    requires w.Step? && w'.Step? && w.i == w'.i < |c.body| && c.body[w.i].CallB? && w.call.Emitted?
    requires Alike(w.s, w'.s, hidden) && Together(b, c, c', w, w', hidden)
    ensures w'.call.Emitted?
    ensures var left := FrameHidden(b, w.call.frame, hidden);
            && AtBoundary(b, c, w.rest, keep) && AtBoundary(b', c', w'.rest, keep')
            && BlockOf(c, w.rest) == BlockOf(c', w'.rest) && Alike(w.rest.s, w'.rest.s, left)
            && Together(b, c, c', w.rest, w'.rest, left)
    ensures Show(BlockMark(c.body[w.i]), w.call.frame.entry) == Show(BlockMark(c.body[w.i]), w'.call.frame.entry)
    ensures WalkEvents(w.call.frame.code, w.call.frame.walk) == WalkEvents(w'.call.frame.code, w'.call.frame.walk)
    decreases w, 0
  {
    hide *;
    var fr := w.call.frame;
    EmittedParts(b, c, w, c', w', hidden);
    var fr' := w'.call.frame;
    SameLay(c, c');
    StepParts(b, c, w, keep);
    StepParts(b', c', w', keep');
    NextBoundary(b, c, w, keep);
    NextBoundary(b', c', w', keep');
    SamePlace(b, c, w, keep, b', c', w', keep', hidden);
    CallTwice(b, c, b', c', w.i, w.s, fr.entry, w'.s, fr'.entry, FrameSize(fr.code.slots), hidden, keep, keep');
    CallShown(c.body[w.i], fr.entry, fr'.entry, hidden + NewFrame(fr.entry.regs.sp, FrameSize(fr.code.slots)));
    PassSteady(b, c, w.i, w.s, fr.entry, keep);
    PassSteady(b', c', w.i, w'.s, fr'.entry, keep');
    LowerAbove(keep, w.s.regs.sp, fr.entry.regs.sp);
    LowerAbove(keep', w'.s.regs.sp, fr'.entry.regs.sp);
    FramesAgree(b, fr, keep, b', fr', keep', hidden);
  }

  lemma EmittedParts(b: Build, c: Code, w: Walk, c': Code, w': Walk, hidden: iset<u16>)
    requires w.Step? && w'.Step? && w.i == w'.i < |c.body| && c.body[w.i].CallB? && w.call.Emitted?
    requires Together(b, c, c', w, w', hidden)
    ensures BlockSees(b, c, c.body[w.i], w.s, hidden) && w'.call.Emitted?
    ensures FramesTogether(b, w.call.frame, w'.call.frame, hidden)
    ensures Together(b, c, c', w.rest, w'.rest, FrameHidden(b, w.call.frame, hidden))
  {
    hide BlockSees, FramesTogether, FrameHidden;
  }

  lemma StepParts(b: Build, c: Code, w: Walk, keep: iset<u16>)
    requires AtBoundary(b, c, w, keep) && w.Step? && w.i < |c.body| && c.body[w.i].CallB? && w.call.Emitted?
    ensures CodeThere(b, c) && b.img.Fits() && AllAbove(keep, w.s.regs.sp) && Stands(w.s, Pos(b, c, w.i))
    ensures Allowed(b, c, c.body[w.i], w.s, keep) && FrameOk(b, w.call.frame, keep) && w.rest.s == w.call.frame.exit
    ensures Run(b.img, w.s, |BlockCode(b.o, c.lay, c.body[w.i])|) == Next(w.call.frame.entry)
  {
    hide Pos, Run, Allowed, BlockCode, FrameOk, Follows, Loaded, CodeLines, AllAbove;
  }

  lemma EmittedEvents(b: Build, c: Code, w: Walk, c': Code, w': Walk, hidden: iset<u16>)
    requires w.Step? && w'.Step? && w.i == w'.i < |c.body| && c'.body == c.body && c.body[w.i].CallB?
    requires w.call.Emitted? && w'.call.Emitted? && WalkEvents(c, w.rest) == WalkEvents(c', w'.rest)
    requires Show(BlockMark(c.body[w.i]), w.call.frame.entry) == Show(BlockMark(c.body[w.i]), w'.call.frame.entry)
    requires WalkEvents(w.call.frame.code, w.call.frame.walk) == WalkEvents(w'.call.frame.code, w'.call.frame.walk)
    ensures WalkEvents(c, w) == WalkEvents(c', w') && Last(w) == Last(w.rest) && Last(w') == Last(w'.rest)
    ensures HiddenEnd(b, c, w, hidden) == HiddenEnd(b, c, w.rest, FrameHidden(b, w.call.frame, hidden))
  {
    hide BlockMark, Show, FrameHidden;
  }

  /** Two activations of the same function, entered alike, show the same events and leave alike. */
  lemma {:induction false} FramesAgree(b: Build, fr: Frame, keep: iset<u16>, b': Build, fr': Frame, keep': iset<u16>,
                                       hidden: iset<u16>)
    requires b.img.Fits() && b'.img.Fits() && FrameOk(b, fr, keep) && FrameOk(b', fr', keep')
    requires fr.entry.regs.sp < 0xfffe && AllAbove(keep, fr.entry.regs.sp) && AllAbove(keep', fr'.entry.regs.sp)
    requires Alike(fr.entry, fr'.entry, hidden + NewFrame(fr.entry.regs.sp, FrameSize(fr.code.slots)))
    requires FramesTogether(b, fr, fr', hidden)
    ensures WalkEvents(fr.code, fr.walk) == WalkEvents(fr'.code, fr'.walk)
    ensures Alike(fr.exit, fr'.exit, FrameHidden(b, fr, hidden))
    decreases fr
  {
    hide *;
    var inside := hidden + NewFrame(fr.entry.regs.sp, FrameSize(fr.code.slots));
    TogetherParts(b, fr, fr', hidden);
    FrameStart(b, fr, keep);
    FrameStart(b', fr', keep');
    StartedIs(b, fr, keep);
    StartedIs(b', fr', keep');
    AlikeFlag(fr.entry, fr'.entry, inside);
    OpenedAlike(fr, fr', hidden);
    WalksAgree(b, fr.code, fr.walk, keep + SavedArea(fr.entry.regs.sp - 10),
               b', fr'.code, fr'.walk, keep' + SavedArea(fr'.entry.regs.sp - 10), inside);
    FrameBack(b, fr, keep);
    FrameBack(b', fr', keep');
    ExitAlike(b, fr, fr', hidden);
  }

  lemma TogetherParts(b: Build, fr: Frame, fr': Frame, hidden: iset<u16>)
    requires FramesTogether(b, fr, fr', hidden)
    ensures SameCode(fr.code, fr'.code) && LabelsOnce(fr.code) && fr.code.slots == fr'.code.slots
    ensures Together(b, fr.code, fr'.code, fr.walk, fr'.walk,
                     hidden + NewFrame(fr.entry.regs.sp, FrameSize(fr.code.slots)))
  {
    hide Together, LabelsOnce;
  }

  /** The walk of an activation starts at a boundary, with the entry's registers. */
  ghost predicate Started(b: Build, fr: Frame, keep: iset<u16>) {
    var t, sp := fr.walk.s, fr.entry.regs.sp;
    && AtBoundary(b, fr.code, fr.walk, keep + SavedArea(sp - 10)) && BlockOf(fr.code, fr.walk) == 0
    && t.regs.g == fr.entry.regs.g && t.regs.cf == fr.entry.regs.cf && SameAbove(fr.entry.mem, t.mem, sp)
    && t.regs.bp == sp - 10 && t.regs.sp == sp - 10 - FrameSize(fr.code.slots)
  }

  lemma FrameStart(b: Build, fr: Frame, keep: iset<u16>)
    requires b.img.Fits() && FrameOk(b, fr, keep) && AllAbove(keep, fr.entry.regs.sp)
    ensures Started(b, fr, keep)
  {
    hide CodeThere, Pos, WalkOk, AllAbove, Spared, Reaches, SavedArea, Saved, Run, Loaded, Opening;
    Opened(b, fr, keep);
  }

  lemma StartedIs(b: Build, fr: Frame, keep: iset<u16>)
    requires Started(b, fr, keep)
    ensures AtBoundary(b, fr.code, fr.walk, keep + SavedArea(fr.entry.regs.sp - 10))
  {
    hide AtBoundary;
  }

  lemma OpenedAlike(fr: Frame, fr': Frame, hidden: iset<u16>)
    requires exists b, keep :: Started(b, fr, keep)
    requires exists b, keep :: Started(b, fr', keep)
    requires fr.code.slots == fr'.code.slots
    requires Alike(fr.entry, fr'.entry, hidden + NewFrame(fr.entry.regs.sp, FrameSize(fr.code.slots)))
    ensures Alike(fr.walk.s, fr'.walk.s, hidden + NewFrame(fr.entry.regs.sp, FrameSize(fr.code.slots)))
    ensures BlockOf(fr.code, fr.walk) == BlockOf(fr'.code, fr'.walk)
  {
    hide AtBoundary;
    var sp, size := fr.entry.regs.sp, FrameSize(fr.code.slots);
    var t, t' := fr.walk.s, fr'.walk.s;
    forall a: u16 | t.regs.sp <= a && a !in hidden + NewFrame(sp, size) ensures t.mem[a] == t'.mem[a] {
      assert !InFrameOf(a, sp, size);
      assert t.mem[a] == fr.entry.mem[a] && t'.mem[a] == fr'.entry.mem[a];
    }
  }

  /** The way out changes nothing but sp, bp, ip and r4 to r7. */
  ghost predicate Back(fr: Frame) {
    && fr.exit.mem == Last(fr.walk).mem && fr.exit.regs.cf == Last(fr.walk).regs.cf && ComesBack(fr.entry, fr.exit)
    && (forall i :: 0 <= i < 4 ==> fr.exit.regs.g[i] == Last(fr.walk).regs.g[i])
    && Last(fr.walk).regs.sp <= fr.entry.regs.sp
  }

  lemma FrameBack(b: Build, fr: Frame, keep: iset<u16>)
    requires b.img.Fits() && FrameOk(b, fr, keep) && AllAbove(keep, fr.entry.regs.sp)
    ensures Back(fr)
  {
    hide *;
    var c, s, sp := fr.code, fr.entry, fr.entry.regs.sp;
    var mine := keep + SavedArea(sp - 10);
    FrameParts(b, fr, keep);
    Opened(b, fr, keep);
    WalkKeeps(b, c, fr.walk, sp - 10, sp - 10 - FrameSize(c.slots), mine);
    KeptParts(b, c, fr.walk, sp - 10, sp - 10 - FrameSize(c.slots), mine);
    AreaStands(s, sp, fr.walk.s.mem, Last(fr.walk).mem, keep);
    Closed(b, fr, keep);
    BackIs(fr);
  }

  lemma BackIs(fr: Frame)
    requires fr.exit.mem == Last(fr.walk).mem && fr.exit.regs.cf == Last(fr.walk).regs.cf && ComesBack(fr.entry, fr.exit)
    requires forall i :: 0 <= i < 4 ==> fr.exit.regs.g[i] == Last(fr.walk).regs.g[i]
    requires Last(fr.walk).regs.sp <= fr.entry.regs.sp
    ensures Back(fr)
  {
    hide ComesBack, Last;
  }

  lemma ExitAlike(b: Build, fr: Frame, fr': Frame, hidden: iset<u16>)
    requires Back(fr) && Back(fr') && fr.entry.regs.sp < 0xfffe && fr.entry.regs.sp == fr'.entry.regs.sp
    requires fr.entry.regs.bp == fr'.entry.regs.bp
    requires Alike(Last(fr.walk), Last(fr'.walk),
                   HiddenEnd(b, fr.code, fr.walk, hidden + NewFrame(fr.entry.regs.sp, FrameSize(fr.code.slots))))
    ensures Alike(fr.exit, fr'.exit, FrameHidden(b, fr, hidden))
  {
    hide HiddenEnd, Last;
  }
}
