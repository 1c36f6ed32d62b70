/**
 The calling convention, for any function body: whatever blocks run between preamble and
 epilogue, bp and sp stand where the frame wants them between any two blocks, and the
 caller gets its registers, its stack and its own saved words back.
 */
module Convention {
  import opened Words
  import opened Machine
  import opened Images
  import opened Values
  import opened Emit
  import opened ExprProof
  import opened StoreProof
  import opened Frames
  import opened Nodes
  import opened Compile
  import opened FuncCode
  import opened SimBase
  import opened SimCode
  import opened Traces
  import opened LabelNames

  /** Control is back at the address on the stack, with r4 to r7, bp and sp as the caller
      had them. */
  ghost predicate ComesBack(s: State, t: State) {
    && s.regs.sp < 0xffff
    && t.regs.ip == Read16(s.mem, s.regs.sp)
    && t.regs.sp == Wrap(s.regs.sp + 2) && t.regs.bp == s.regs.bp
    && (forall i :: 4 <= i < 8 ==> t.regs.g[i] == s.regs.g[i])
  }

  /** The same, and nothing from the entry sp up has changed. */
  ghost predicate ReturnsTo(s: State, t: State) {
    ComesBack(s, t) && SameAbove(s.mem, t.mem, s.regs.sp)
  }

  // The fixed code around a body -----------------------------------------------------------

  /** The local blocks lower sp by the frame size. */
  lemma {:induction false} LocalsTake(u: Unit, slots: seq<Slot>, k: nat, s: State) returns (t: State)
    requires u.img.Fits() && At(u, LocalBlocks(slots), k) && Stands(s, k)
    requires FrameSize(slots) <= s.regs.sp
    ensures Takes(u.img, u.marks, s, t, Size(u, LocalBlocks(slots)), []) && Stands(t, k + Size(u, LocalBlocks(slots)))
    ensures t == s.(regs := s.regs.(sp := s.regs.sp - FrameSize(slots), ip := t.regs.ip))
  {
    hide At, Size, Takes, Exec, RunSeq;
    if slots == [] {
      t := s;
      TakesNone(u.img, u.marks, s);
      EmptyBlocks(u);
    } else {
      var A, b := LocalBlocks(slots[1..]), LocalB(slots[0]);
      AtAppend(u, A, [b], k);
      var s1 := LocalsTake(u, slots[1..], k, s);
      BlockRoom(u, b, k + Size(u, A), s1);
      t := s1.(regs := s1.regs.(sp := s1.regs.sp - slots[0].size, ip := s1.regs.ip + 4));
      LocalRuns(u.names, slots[0].size, s1, t, u.img.lim);
      BlockTakes(u, b, k + Size(u, A), s1, t);
      TakesOn(u.img, u.marks, s, s1, t, Size(u, A), Size(u, [b]), []);
    }
  }

  /** Preamble and locals: the frame is up, the caller's registers lie saved in it. */
  lemma EntryTakes(u: Unit, slots: seq<Slot>, k: nat, s: State) returns (t: State)
    requires u.img.Fits() && At(u, [Preamble] + LocalBlocks(slots), k) && Stands(s, k)
    requires u.img.lim <= s.regs.sp - 10 - FrameSize(slots)
    ensures Takes(u.img, u.marks, s, t, Size(u, [Preamble] + LocalBlocks(slots)), [])
    ensures Stands(t, k + Size(u, [Preamble] + LocalBlocks(slots))) && t.regs.g == s.regs.g && t.regs.cf == s.regs.cf
    ensures t.regs.bp == s.regs.sp - 10 && t.regs.sp == s.regs.sp - 10 - FrameSize(slots)
    ensures Saved(s, s.regs.sp - 10, t.mem) && SameAbove(s.mem, t.mem, s.regs.sp)
  {
    hide At, Size, Takes, Runs, BlockCode, PreambleCode, LocalBlocks, Saved, SameAbove;
    PreambleShape(u);
    AtAppend(u, [Preamble], LocalBlocks(slots), k);
    BlockRoom(u, Preamble, k, s);
    var s1 := PreambleRuns(u.names, s, u.img.lim);
    BlockTakes(u, Preamble, k, s, s1);
    t := LocalsTake(u, slots, k + Size(u, [Preamble]), s1);
    TakesOn(u.img, u.marks, s, s1, t, Size(u, [Preamble]), Size(u, LocalBlocks(slots)), []);
  }

  lemma PreambleShape(u: Unit)
    ensures |PreambleCode()| == 6 && BlockCode(u.o, u.lay, Preamble) == PreambleCode()
  {
  }

  /** The epilogue and `ret`: as long as the saved words and the return address stand,
      control and registers go back as the convention says. */
  lemma ExitTakes(u: Unit, entry: State, ex: nat, s: State) returns (t: State)
    requires u.img.Fits() && At(u, [Epilogue], ex) && Stands(s, ex)
    requires Loaded([Ins(Ret)], ex + Size(u, [Epilogue]), u.img, u.names)
    requires MarksAt(u.marks, ex + Size(u, [Epilogue]), [NoMark])
    requires 10 <= entry.regs.sp < 0xffff && s.regs.bp == entry.regs.sp - 10 && Saved(entry, s.regs.bp, s.mem)
    requires Read16(s.mem, entry.regs.sp) == Read16(entry.mem, entry.regs.sp)
    ensures Size(u, [Epilogue]) == 6 && Takes(u.img, u.marks, s, t, 7, [])
    ensures ComesBack(entry, t) && t.mem == s.mem && t.regs.cf == s.regs.cf
    ensures forall i :: 0 <= i < 4 ==> t.regs.g[i] == s.regs.g[i]
  {
    hide Takes, MarksAt, At, Size, Runs, BlockCode, EpilogueCode, Saved, Loaded;
    EpilogueShape(u);
    BlockRoom(u, Epilogue, ex, s);
    var s1 := EpilogueRuns(u.names, entry, s, u.img.lim);
    BlockTakes(u, Epilogue, ex, s, s1);
    t := s1.(regs := s1.regs.(ip := Read16(s1.mem, s1.regs.sp), sp := Wrap(s1.regs.sp + 2)));
    RetStep(s1, t, u.img.lim);
    LoadedStep(u, Ret, NoMark, ex + Size(u, [Epilogue]), s1, t);
    TakesOn(u.img, u.marks, s, s1, t, 6, 1, []);
  }

  lemma EpilogueShape(u: Unit)
    ensures |EpilogueCode()| == 6 && BlockCode(u.o, u.lay, Epilogue) == EpilogueCode()
  {
  }

  lemma RetStep(s: State, t: State, lim: int)
    requires s.regs.sp < 0xffff
    requires t == s.(regs := s.regs.(ip := Read16(s.mem, s.regs.sp), sp := Wrap(s.regs.sp + 2)))
    ensures Exec(Ret, s, lim) == Next(t)
  {
  }

  // Any body ---------------------------------------------------------------------------------

  /** One build in memory. */
  datatype Build = Build(img: Image, o: Options, env: map<string, u16>)

  /** A function as the emitter prints it from instruction `at` on: any locals, any blocks. */
  datatype Code = Code(lay: Layout, scope: string, slots: seq<Slot>, body: seq<Block>, at: nat)

  function Opening(c: Code): seq<Block> {
    [Preamble] + LocalBlocks(c.slots)
  }

  function CodeLines(o: Options, c: Code): seq<Line> {
    EmitBlocks(o, c.lay, Opening(c) + c.body + [Epilogue]) + [Ins(Ret)]
  }

  /** The instruction block i of the body starts at. */
  function Pos(b: Build, c: Code, i: nat): nat
    requires i <= |c.body|
  {
    c.at + Count(EmitBlocks(b.o, c.lay, Opening(c) + c.body[..i]))
  }

  /** A run from block to block: what each block was run from, and for a call what the
      callee did, be it emitted code too or any other. */
  datatype Walk = Leave(s: State) | Step(s: State, i: nat, call: Call, rest: Walk)

  datatype Call = NoCall | Emitted(frame: Frame) | Foreign(entry: State, exit: State)

  /** An activation: entered in `entry`, back at its caller in `exit`. */
  datatype Frame = Frame(code: Code, entry: State, walk: Walk, exit: State)

  function Last(w: Walk): State {
    if w.Leave? then w.s else Last(w.rest)
  }

  /** The bytes that must stand for an activation to get back: the five words the preamble
      saved and the return address. */
  ghost function SavedArea(bp: int): iset<u16> {
    iset a: u16 | IsSaved(a, bp)
  }

  predicate IsSaved(a: u16, bp: int) {
    bp <= a < bp + 12
  }

  ghost predicate Spared(keep: iset<u16>, m: Memory, n: Memory) {
    forall a :: a in keep ==> m[a] == n[a]
  }

  ghost predicate StoreAllowed(b: Build, c: Code, reg: GprIndex, p: Place, s: State, keep: iset<u16>) {
    var names := Names(b.env, c.scope);
    var a := PlaceAddr(p, CtxOf(c.lay, names, s));
    CanStore(b.o, c.lay, names, reg, p, s, b.img.lim) && forall x :: x in keep ==> x != a && x != a + 1
  }

  /** What a block needs to run: its values can be evaluated, and its store, from the state
      its value leaves, goes to no kept byte. */
  ghost predicate Allowed(b: Build, c: Code, k: Block, s: State, keep: iset<u16>) {
    var names := Names(b.env, c.scope);
    match k
    case StoreB(p, v) =>
      && CanEval(b.o, c.lay, names, R5, v, s, b.img.lim)
      && var mid := Run(b.img, s, |EmitValue(b.o, c.lay, R5, v)|);
         mid.Next? ==> StoreAllowed(b, c, R5, p, mid.s, keep)
    case StoreReturn(v) => CanEval(b.o, c.lay, names, 0, v, s, b.img.lim)
    case StoreResult(x) => StoreAllowed(b, c, 0, PlainPlace(x), s, keep)
    case StoreArg(x, i) => StoreAllowed(b, c, ArgReg(i), PlainPlace(x), s, keep)
    case CmpB(l, r) => CanCmp(b.o, c.lay, names, l, r, s, b.img.lim)
    case CallB(f, args) => CanPass(b.o, c.lay, names, args, s, b.img.lim) && b.img.lim + 2 <= s.regs.sp
    case JmpB(_, _) => true
    case LabelB(_) => true
    case _ => false
  }

  /** The block a walk is at, or the end of the body. */
  function BlockOf(c: Code, w: Walk): nat {
    if w.Leave? then |c.body| else w.i
  }

  /** Block j comes after block i: the next one, or where the jump's label stands. */
  predicate Follows(c: Code, s: State, i: nat, j: nat)
    requires i < |c.body|
  {
    match c.body[i]
    case JmpB(kind, dest) =>
      if kind.Always? || s.regs.cf == kind.Eq? then j < |c.body| && c.body[j] == LabelB(dest) else j == i + 1
    case _ => j == i + 1
  }

  /** The walk goes along the blocks and their jumps, and its states are the machine's: each
      block allowed where it is run, each call coming back by the convention. */
  ghost predicate WalkOk(b: Build, c: Code, w: Walk, keep: iset<u16>)
    decreases w
  {
    match w
    case Leave(_) => true
    case Step(s, i, call, rest) =>
      && i < |c.body| && Allowed(b, c, c.body[i], s, keep) && Follows(c, s, i, BlockOf(c, rest))
      && (var next := Run(b.img, s, |BlockCode(b.o, c.lay, c.body[i])|);
          if !c.body[i].CallB? then next == Next(rest.s) && call.NoCall?
          else
            match call
            case Emitted(fr) => next == Next(fr.entry) && FrameOk(b, fr, keep) && rest.s == fr.exit
            case Foreign(entry, exit) =>
              && next == Next(entry) && Reaches(b.img, entry, exit) && rest.s == exit
              && ComesBack(entry, exit) && Spared(keep, entry.mem, exit.mem)
            case NoCall => false)
      && WalkOk(b, c, rest, keep)
  }

  /** An activation of emitted code: entered at its first instruction with stack for its
      frame, walked, left through epilogue and `ret`. Its stores and its callees keep what
      `keep` holds and its own saved area. */
  ghost predicate FrameOk(b: Build, fr: Frame, keep: iset<u16>)
    decreases fr
  {
    var c, sp := fr.code, fr.entry.regs.sp;
    && c.at <= |b.img.ins| && Loaded(CodeLines(b.o, c), c.at, b.img, Names(b.env, c.scope))
    && Stands(fr.entry, c.at) && sp < 0xffff && b.img.lim <= sp - 10 - FrameSize(c.slots)
    && Run(b.img, fr.entry, Count(EmitBlocks(b.o, c.lay, Opening(c)))) == Next(fr.walk.s)
    && BlockOf(c, fr.walk) == 0 && WalkOk(b, c, fr.walk, keep + SavedArea(sp - 10))
    && Run(b.img, Last(fr.walk), 7) == Next(fr.exit)
  }

  /** At every boundary between two blocks, in this activation and all it calls: bp and sp
      are the frame's, and ip is at the next block. */
  predicate Level(b: Build, c: Code, w: Walk, bp: int, sp: int)
    decreases w
  {
    && w.s.regs.bp == bp && w.s.regs.sp == sp && BlockOf(c, w) <= |c.body| && Stands(w.s, Pos(b, c, BlockOf(c, w)))
    && (w.Step? ==> Level(b, c, w.rest, bp, sp) && (w.call.Emitted? ==> FrameLevel(b, w.call.frame)))
  }

  predicate FrameLevel(b: Build, fr: Frame)
    decreases fr
  {
    Level(b, fr.code, fr.walk, fr.entry.regs.sp - 10, fr.entry.regs.sp - 10 - FrameSize(fr.code.slots))
  }

  // The blocks of a body -----------------------------------------------------------------------

  ghost predicate CodeThere(b: Build, c: Code) {
    b.img.Fits() && c.at <= |b.img.ins| && Loaded(CodeLines(b.o, c), c.at, b.img, Names(b.env, c.scope))
  }

  /** The code as a unit whose marks are its own. */
  ghost function UnitOfCode(b: Build, c: Code): Unit {
    var marks := seq(c.at, i => NoMark) + BlocksMarks(b.o, c.lay, Opening(c) + c.body + [Epilogue]) + [NoMark];
    Unit(b.img, marks, b.o, c.lay, Names(b.env, c.scope), FrameSize(c.slots), 0)
  }

  /** Opening, body and closing of the code, each where it stands. */
  lemma CodeParts(b: Build, c: Code)
    requires CodeThere(b, c)
    ensures var u, ex := UnitOfCode(b, c), Pos(b, c, |c.body|);
            && At(u, Opening(c), c.at) && At(u, [Epilogue], ex) && At(u, Opening(c) + c.body + [Epilogue], c.at)
            && Size(u, Opening(c)) == Count(EmitBlocks(b.o, c.lay, Opening(c)))
            && Loaded([Ins(Ret)], ex + Size(u, [Epilogue]), u.img, u.names)
            && MarksAt(u.marks, ex + Size(u, [Epilogue]), [NoMark])
  {
    hide EmitBlocks, Loaded, Count, BlocksMarks, Opening, MarksAt;
    var u := UnitOfCode(b, c);
    var all := Opening(c) + c.body + [Epilogue];
    LoadedAppend(EmitBlocks(b.o, c.lay, all), [Ins(Ret)], c.at, b.img, u.names);
    OwnMarks(c.at, BlocksMarks(b.o, c.lay, all));
    BlocksMarksCount(b.o, c.lay, all);
    AtAppend(u, Opening(c) + c.body, [Epilogue], c.at);
    AtAppend(u, Opening(c), c.body, c.at);
    assert c.body[..|c.body|] == c.body;
  }

  lemma OwnMarks(k: nat, part: seq<Mark>)
    ensures var marks := seq(k, i => NoMark) + part + [NoMark]; MarksAt(marks, k, part) && MarksAt(marks, k + |part|, [NoMark])
  {
  }

  /** Where a block's code stands. */
  lemma BlockThere(b: Build, c: Code, i: nat)
    requires CodeThere(b, c) && i < |c.body|
    ensures At(UnitOfCode(b, c), [c.body[i]], Pos(b, c, i))
    ensures !c.body[i].LabelB? ==> Loaded(Lines(BlockCode(b.o, c.lay, c.body[i])), Pos(b, c, i), b.img, Names(b.env, c.scope))
  {
    hide EmitBlocks, Loaded, Count, BlocksMarks, Opening, MarksAt, BlockCode;
    var u := UnitOfCode(b, c);
    CodeParts(b, c);
    var before, after := Opening(c) + c.body[..i], c.body[i + 1..] + [Epilogue];
    assert Opening(c) + c.body + [Epilogue] == before + ([c.body[i]] + after);
    AtAppend(u, before, [c.body[i]] + after, c.at);
    AtAppend(u, [c.body[i]], after, Pos(b, c, i));
    AtOne(u, c.body[i], Pos(b, c, i));
  }

  lemma PosNext(b: Build, c: Code, i: nat)
    requires CodeThere(b, c) && i < |c.body|
    ensures Pos(b, c, i + 1) == Pos(b, c, i) + |BlockCode(b.o, c.lay, c.body[i])|
    ensures 4 * Pos(b, c, i + 1) < 0x1_0000
  {
    hide EmitBlocks, Loaded, Count, BlocksMarks, Opening, MarksAt, BlockCode, EmitBlock;
    assert Opening(c) + c.body[..i + 1] == (Opening(c) + c.body[..i]) + [c.body[i]];
    EmitBlocksAppend(b.o, c.lay, Opening(c) + c.body[..i], [c.body[i]]);
    CountAppend(EmitBlocks(b.o, c.lay, Opening(c) + c.body[..i]), EmitBlocks(b.o, c.lay, [c.body[i]]));
    BlockThere(b, c, i);
    AtOne(UnitOfCode(b, c), c.body[i], Pos(b, c, i));
    BlockCount(b.o, c.lay, c.body[i]);
  }

  /** Loaded straight code is where the machine's steps lead. */
  lemma StepsAre(b: Build, names: Names, code: seq<Instr>, k: nat, s: State, t: State)
    requires Loaded(Lines(code), k, b.img, names) && Stands(s, k) && Runs(names, code, s, t, b.img.lim)
    ensures Run(b.img, s, |code|) == Next(t) && Stands(t, k + |code|)
  {
    hide Loaded, RunSeq, Run;
    RunSeqIp(names, code, s, b.img.lim);
    StraightRun(names, code, k, b.img, s);
  }

  lemma FirstPart(a: seq<Instr>, z: seq<Instr>, k: nat, img: Image, names: Names)
    requires Loaded(Lines(a + z), k, img, names)
    ensures Loaded(Lines(a), k, img, names)
    ensures z != [] ==> k + |a| < |img.ins| && img.ins[k + |a|] == Resolve(names, z[0])
  {
    hide Resolve;
    assert Lines(a + z) == Lines(a) + Lines(z);
    LoadedAppend(Lines(a), Lines(z), k, img, names);
    CountLines(a);
  }

  ghost predicate AllAbove(keep: iset<u16>, sp: int) {
    forall a :: a in keep ==> sp <= a
  }

  /** bp and sp stand, and so do the kept bytes. */
  ghost predicate Steady(s: State, t: State, keep: iset<u16>) {
    t.regs.bp == s.regs.bp && t.regs.sp == s.regs.sp && Spared(keep, s.mem, t.mem)
  }

  lemma BelowSteady(s: State, t: State, depth: nat, keep: iset<u16>)
    requires AllAbove(keep, s.regs.sp) && t.regs.bp == s.regs.bp && t.regs.sp == s.regs.sp
    requires SameOutside(s.mem, t.mem, s.regs.sp - 2 * depth, s.regs.sp)
    ensures Steady(s, t, keep)
  {
  }

  lemma StoreSteady(b: Build, c: Code, reg: GprIndex, p: Place, k: nat, s: State, keep: iset<u16>) returns (t: State)
    requires StoreAllowed(b, c, reg, p, s, keep) && AllAbove(keep, s.regs.sp)
    ensures Runs(Names(b.env, c.scope), EmitStore(b.o, c.lay, reg, R4, p), s, t, b.img.lim) && Steady(s, t, keep)
  {
    hide Runs, PlaceAddr, CanStore;
    t := StoreCorrect(b.o, c.lay, Names(b.env, c.scope), reg, p, s, b.img.lim);
  }

  lemma CodeFits(b: Build, c: Code)
    requires CodeThere(b, c)
    ensures b.img.Fits() && 0 <= b.img.lim
  {
  }

  /** The instruction of loaded code the machine is about to execute. */
  lemma FetchIs(names: Names, code: seq<Instr>, j: nat, k: nat, img: Image, s: State)
    requires Loaded(Lines(code), k, img, names) && j < |code| && Stands(s, k + j)
    ensures Fetch(img, s) == Exec(Resolve(names, code[j]), s, img.lim) && k + j < |img.ins|
  {
    hide Exec, Resolve, Loaded, Lines;
    assert code[..j] + code[j..] == code;
    FirstPart(code[..j], code[j..], k, img, names);
  }

  /** A jump lands where its flag sends it. */
  lemma JumpSteady(b: Build, c: Code, i: nat, j: nat, s: State, t: State, keep: iset<u16>)
    requires CodeThere(b, c) && i < |c.body| && c.body[i].JmpB? && Stands(s, Pos(b, c, i)) && Follows(c, s, i, j)
    requires Run(b.img, s, |BlockCode(b.o, c.lay, c.body[i])|) == Next(t)
    ensures Steady(s, t, keep) && j <= |c.body| && Stands(t, Pos(b, c, j))
    ensures t.mem == s.mem
    ensures t.regs == s.regs.(ip := t.regs.ip, cf := if c.body[i].kind.Neq? then !s.regs.cf else s.regs.cf)
  {
    hide CodeThere, Pos, Exec, Run, Loaded, Lines, Fetch;
    var names, k, code := Names(b.env, c.scope), Pos(b, c, i), BlockCode(b.o, c.lay, c.body[i]);
    BlockThere(b, c, i);
    PosNext(b, c, i);
    var kind, dest := c.body[i].kind, c.body[i].dest;
    if kind.Always? || s.regs.cf == kind.Eq? {
      LabelThere(b, c, j);
    }
    FetchIs(names, code, 0, k, b.img, s);
    if |code| == 1 {
      OneStep(b.img, s, t);
      JumpMoves(names, code[0], dest, k, Pos(b, c, j), s, t, b.img.lim);
    } else {
      var s1 := TwoSteps(b.img, s, t);
      FlipMoves(names, s, s1, k, b.img.lim);
      FetchIs(names, code, 1, k, b.img, s1);
      JumpMoves(names, code[1], dest, k + 1, Pos(b, c, j), s1, t, b.img.lim);
    }
  }

  lemma LabelThere(b: Build, c: Code, j: nat)
    requires CodeThere(b, c) && j < |c.body| && c.body[j].LabelB?
    ensures var full := Qualify(c.scope, "@" + c.body[j].name); full in b.env && b.env[full] == 4 * Pos(b, c, j)
  {
    hide CodeThere, Pos;
    BlockThere(b, c, j);
    LabelAt(UnitOfCode(b, c), c.body[j].name, Pos(b, c, j));
  }

  lemma FlipMoves(names: Names, s: State, t: State, k: nat, lim: int)
    requires Exec(Resolve(names, Cfs), s, lim) == Next(t) && Stands(s, k) && 4 * k + 4 < 0x1_0000
    ensures Stands(t, k + 1) && t.mem == s.mem && t.regs == s.regs.(ip := t.regs.ip, cf := !s.regs.cf)
  {
  }

  lemma JumpMoves(names: Names, i: Instr, dest: string, k: nat, target: nat, s: State, t: State, lim: int)
    requires i == Jmp(SSym("@" + dest)) || i == Jeq(SSym("@" + dest))
    requires Exec(Resolve(names, i), s, lim) == Next(t) && Stands(s, k) && 4 * k + 4 < 0x1_0000
    requires var full := Qualify(names.scope, "@" + dest);
             if i.Jmp? || s.regs.cf then full in names.addr && names.addr[full] == 4 * target else target == k + 1
    ensures OnlyMoved(s, t) && t.regs.cf == s.regs.cf && Stands(t, target)
  {
  }

  /** A block other than a call. */
  lemma BlockSteady(b: Build, c: Code, i: nat, j: nat, s: State, t: State, keep: iset<u16>)
    requires CodeThere(b, c) && i < |c.body| && !c.body[i].CallB? && Stands(s, Pos(b, c, i))
    requires Follows(c, s, i, j) && Allowed(b, c, c.body[i], s, keep) && AllAbove(keep, s.regs.sp)
    requires Run(b.img, s, |BlockCode(b.o, c.lay, c.body[i])|) == Next(t)
    ensures Steady(s, t, keep) && j <= |c.body| && Stands(t, Pos(b, c, j))
  {
    hide CodeThere, Pos, Run, Loaded, Runs, EmitValue, EmitStore, EmitCmp, Steady, AllAbove, CanEval, CanCmp,
         StoreAllowed, Lines;
    var names, k, lim := Names(b.env, c.scope), Pos(b, c, i), b.img.lim;
    BlockThere(b, c, i);
    PosNext(b, c, i);
    match c.body[i]
    case StoreB(p, v) => StoreBSteady(b, c, p, v, k, s, t, keep);
    case StoreReturn(v) =>
      var x := ExprCorrect(b.o, c.lay, names, 0, v, s, lim);
      StepsAre(b, names, EmitValue(b.o, c.lay, 0, v), k, s, x);
      BelowSteady(s, t, Depth(v), keep);
    case StoreResult(x) =>
      var x := StoreSteady(b, c, 0, PlainPlace(x), k, s, keep);
      StepsAre(b, names, BlockCode(b.o, c.lay, c.body[i]), k, s, x);
    case StoreArg(x, n) =>
      var x := StoreSteady(b, c, ArgReg(n), PlainPlace(x), k, s, keep);
      StepsAre(b, names, BlockCode(b.o, c.lay, c.body[i]), k, s, x);
    case CmpB(l, r) =>
      var x := CmpCorrect(b.o, c.lay, names, l, r, s, lim);
      StepsAre(b, names, EmitCmp(b.o, c.lay, l, r), k, s, x);
      BelowSteady(s, t, Max(Depth(l), Depth(r)), keep);
    case JmpB(_, _) => JumpSteady(b, c, i, j, s, t, keep);
    case LabelB(_) => NoSteps(b, s, t, keep);
  }

  lemma NoSteps(b: Build, s: State, t: State, keep: iset<u16>)
    requires Run(b.img, s, 0) == Next(t)
    ensures Steady(s, t, keep) && t == s
  {
  }

  lemma StoreBSteady(b: Build, c: Code, p: Place, v: Value, k: nat, s: State, t: State, keep: iset<u16>)
    requires Allowed(b, c, StoreB(p, v), s, keep) && AllAbove(keep, s.regs.sp) && Stands(s, k)
    requires Loaded(Lines(BlockCode(b.o, c.lay, StoreB(p, v))), k, b.img, Names(b.env, c.scope))
    requires Run(b.img, s, |BlockCode(b.o, c.lay, StoreB(p, v))|) == Next(t)
    ensures Steady(s, t, keep) && Stands(t, k + |BlockCode(b.o, c.lay, StoreB(p, v))|)
  {
    hide Run, Loaded, Runs, EmitValue, EmitStore, AllAbove, CanEval, StoreAllowed, Lines;
    var names := Names(b.env, c.scope);
    var A, B := EmitValue(b.o, c.lay, R5, v), EmitStore(b.o, c.lay, R5, R4, p);
    var s1 := ExprCorrect(b.o, c.lay, names, R5, v, s, b.img.lim);
    FirstPart(A, B, k, b.img, names);
    StepsAre(b, names, A, k, s, s1);
    BelowSteady(s, s1, Depth(v), keep);
    var x := StoreSteady(b, c, R5, p, k, s1, keep);
    RunsThen(names, A, B, s, s1, x, b.img.lim);
    StepsAre(b, names, A + B, k, s, x);
  }

  lemma CallLands(f: string, names: Names, s: State, t: State, lim: int)
    requires 0 <= lim <= s.regs.sp - 2 && Exec(Resolve(names, Call(SSym(f))), s, lim) == Next(t)
    ensures s.regs.ip + 4 < 0x1_0000 ==> Read16(t.mem, t.regs.sp) == s.regs.ip + 4
    ensures t.regs.sp == s.regs.sp - 2 && t.regs.bp == s.regs.bp && SameOutside(s.mem, t.mem, s.regs.sp - 2, s.regs.sp)
  {
  }

  /** The argument code and the call instruction of a call block: the callee starts with the
      next block's address on the stack. */
  lemma PassSteady(b: Build, c: Code, i: nat, s: State, entry: State, keep: iset<u16>)
    requires CodeThere(b, c) && i < |c.body| && c.body[i].CallB? && Stands(s, Pos(b, c, i))
    requires Allowed(b, c, c.body[i], s, keep) && AllAbove(keep, s.regs.sp)
    requires Run(b.img, s, |BlockCode(b.o, c.lay, c.body[i])|) == Next(entry)
    ensures entry.regs.sp == s.regs.sp - 2 && entry.regs.bp == s.regs.bp && Spared(keep, s.mem, entry.mem)
    ensures s.regs.sp >= 2 && Read16(entry.mem, entry.regs.sp) == 4 * Pos(b, c, i + 1)
  {
    hide CodeThere, Pos, Run, Loaded, EmitArgs, CanPass, Lines, Resolve, Exec, Runs;
    var names, k, lim := Names(b.env, c.scope), Pos(b, c, i), b.img.lim;
    var code, call := EmitArgs(b.o, c.lay, c.body[i].args), Call(SSym(c.body[i].f));
    BlockThere(b, c, i);
    PosNext(b, c, i);
    FirstPart(code, [call], k, b.img, names);
    var s1 := ArgsCorrect(b.o, c.lay, names, c.body[i].args, s, lim);
    RunsIp(names, code, s, s1, lim);
    StepsAre(b, names, code, k, s, s1);
    RunAppend(b.img, s, s1, |code|, 1);
    OneStep(b.img, s1, entry);
    CodeFits(b, c);
    CallLands(c.body[i].f, names, s1, entry, lim);
  }

  lemma OneStep(img: Image, s: State, t: State)
    requires Run(img, s, 1) == Next(t)
    ensures Fetch(img, s) == Next(t)
  {
    var t' := Fetch(img, s);
    if t'.Next? {
      assert Run(img, t'.s, 0) == t';
    }
  }

  lemma TwoSteps(img: Image, s: State, t: State) returns (m: State)
    requires Run(img, s, 2) == Next(t)
    ensures Fetch(img, s) == Next(m) && Fetch(img, m) == Next(t)
  {
    hide Fetch;
    m := Fetch(img, s).s;
    assert Run(img, m, 1) == Next(t);
    OneStep(img, m, t);
  }

  // No block gets stuck ------------------------------------------------------------------------

  /** Every jump's label is a block of the body. */
  predicate LabelsPlaced(c: Code) {
    forall b :: b in c.body && b.JmpB? ==> LabelB(b.dest) in c.body
  }

  /** An allowed block that is no call runs to its end: nothing wild or faulting on the way. */
  lemma BlockRuns(b: Build, c: Code, i: nat, s: State, keep: iset<u16>) returns (t: State)
    requires CodeThere(b, c) && LabelsPlaced(c) && i < |c.body| && !c.body[i].CallB? && Stands(s, Pos(b, c, i))
    requires Allowed(b, c, c.body[i], s, keep)
    ensures Run(b.img, s, |BlockCode(b.o, c.lay, c.body[i])|) == Next(t)
  {
    hide CodeThere, Pos, Run, Loaded, Runs, EmitValue, EmitStore, EmitCmp, CanEval, CanStore, CanCmp, Lines;
    var names, k, lim := Names(b.env, c.scope), Pos(b, c, i), b.img.lim;
    BlockThere(b, c, i);
    match c.body[i]
    case StoreB(p, v) =>
      var A, B := EmitValue(b.o, c.lay, R5, v), EmitStore(b.o, c.lay, R5, R4, p);
      var s1 := ExprCorrect(b.o, c.lay, names, R5, v, s, lim);
      FirstPart(A, B, k, b.img, names);
      StepsAre(b, names, A, k, s, s1);
      t := StoreCorrect(b.o, c.lay, names, R5, p, s1, lim);
      RunsThen(names, A, B, s, s1, t, lim);
      StepsAre(b, names, A + B, k, s, t);
    case StoreReturn(v) =>
      t := ExprCorrect(b.o, c.lay, names, 0, v, s, lim);
      StepsAre(b, names, EmitValue(b.o, c.lay, 0, v), k, s, t);
    case StoreResult(x) =>
      t := StoreCorrect(b.o, c.lay, names, 0, PlainPlace(x), s, lim);
      StepsAre(b, names, BlockCode(b.o, c.lay, c.body[i]), k, s, t);
    case StoreArg(x, n) =>
      t := StoreCorrect(b.o, c.lay, names, ArgReg(n), PlainPlace(x), s, lim);
      StepsAre(b, names, BlockCode(b.o, c.lay, c.body[i]), k, s, t);
    case CmpB(l, r) =>
      t := CmpCorrect(b.o, c.lay, names, l, r, s, lim);
      StepsAre(b, names, EmitCmp(b.o, c.lay, l, r), k, s, t);
    case JmpB(_, _) => t := JumpRuns(b, c, i, s);
    case LabelB(_) =>
      t := s;
      AtRest(b.img, s);
  }

  lemma AtRest(img: Image, s: State)
    ensures Run(img, s, 0) == Next(s)
  {
  }

  lemma JumpRuns(b: Build, c: Code, i: nat, s: State) returns (t: State)
    requires CodeThere(b, c) && LabelsPlaced(c) && i < |c.body| && c.body[i].JmpB? && Stands(s, Pos(b, c, i))
    ensures Run(b.img, s, |BlockCode(b.o, c.lay, c.body[i])|) == Next(t)
  {
    hide CodeThere, Pos, Exec, Loaded, Lines, Fetch;
    var names, k, code := Names(b.env, c.scope), Pos(b, c, i), BlockCode(b.o, c.lay, c.body[i]);
    BlockThere(b, c, i);
    PosNext(b, c, i);
    var j :| 0 <= j < |c.body| && c.body[j] == LabelB(c.body[i].dest);
    LabelThere(b, c, j);
    FetchIs(names, code, 0, k, b.img, s);
    if |code| == 1 {
      t := JumpGoes(names, code[0], c.body[i].dest, s, b.img.lim);
      AtRest(b.img, t);
    } else {
      var s1 := FlipGoes(names, s, b.img.lim);
      FlipMoves(names, s, s1, k, b.img.lim);
      FetchIs(names, code, 1, k, b.img, s1);
      t := JumpGoes(names, code[1], c.body[i].dest, s1, b.img.lim);
      AtRest(b.img, t);
      assert Run(b.img, s1, 1) == Next(t);
    }
  }

  lemma FlipGoes(names: Names, s: State, lim: int) returns (t: State)
    ensures Exec(Resolve(names, Cfs), s, lim) == Next(t)
  {
    t := Exec(Resolve(names, Cfs), s, lim).s;
  }

  lemma JumpGoes(names: Names, i: Instr, dest: string, s: State, lim: int) returns (t: State)
    requires (i == Jmp(SSym("@" + dest)) || i == Jeq(SSym("@" + dest))) && Qualify(names.scope, "@" + dest) in names.addr
    ensures Exec(Resolve(names, i), s, lim) == Next(t)
  {
    t := Exec(Resolve(names, i), s, lim).s;
  }

  /** An allowed call enters its callee. */
  lemma CallEnters(b: Build, c: Code, i: nat, s: State, keep: iset<u16>) returns (entry: State)
    requires CodeThere(b, c) && i < |c.body| && c.body[i].CallB? && Stands(s, Pos(b, c, i))
    requires Allowed(b, c, c.body[i], s, keep) && Qualify(c.scope, c.body[i].f) in b.env
    ensures Run(b.img, s, |BlockCode(b.o, c.lay, c.body[i])|) == Next(entry)
    ensures entry.regs.ip == b.env[Qualify(c.scope, c.body[i].f)]
    ensures forall n :: 0 <= n < |c.body[i].args| ==>
              entry.regs.g[n] == Eval(c.body[i].args[n], CtxOf(c.lay, Names(b.env, c.scope), s))
  {
    hide CodeThere, Pos, Run, Loaded, EmitArgs, Lines, Exec, Runs, Safe, Sound, Eval;
    var names, k, lim := Names(b.env, c.scope), Pos(b, c, i), b.img.lim;
    var code, call := EmitArgs(b.o, c.lay, c.body[i].args), Call(SSym(c.body[i].f));
    BlockThere(b, c, i);
    FirstPart(code, [call], k, b.img, names);
    CodeFits(b, c);
    var s1 := ArgsCorrect(b.o, c.lay, names, c.body[i].args, s, lim);
    RunsIp(names, code, s, s1, lim);
    StepsAre(b, names, code, k, s, s1);
    entry := Called(b.img, s1, b.env[names.Full(c.body[i].f)], k + |code|);
    RunAppend(b.img, s, s1, |code|, 1);
  }

  lemma Called(img: Image, s: State, addr: u16, k: nat) returns (t: State)
    requires img.Fits() && Stands(s, k) && k < |img.ins| && img.ins[k] == Call(SImm(addr)) && img.lim + 2 <= s.regs.sp
    ensures Run(img, s, 1) == Next(t) && t.regs.ip == addr && t.regs.g == s.regs.g
  {
    hide Exec;
    CallExec(addr, s, img.lim);
    t := Fetch(img, s).s;
    AtRest(img, t);
  }

  // Whole runs ---------------------------------------------------------------------------------

  lemma RunReaches(img: Image, s: State, t: State, n: nat)
    requires Run(img, s, n) == Next(t)
    ensures Reaches(img, s, t)
  {
  }

  /** What a walk leaves alone from its first boundary to its last. */
  ghost predicate Kept(b: Build, c: Code, w: Walk, bp: int, sp: int, keep: iset<u16>) {
    && Level(b, c, w, bp, sp) && Spared(keep, w.s.mem, Last(w).mem) && Reaches(b.img, w.s, Last(w))
    && Last(w).regs.bp == bp && Last(w).regs.sp == sp && Stands(Last(w), Pos(b, c, |c.body|))
  }

  /** However many blocks are run, whatever they store and whomever they call. */
  lemma {:induction false} WalkKeeps(b: Build, c: Code, w: Walk, bp: int, sp: int, keep: iset<u16>)
    requires CodeThere(b, c) && WalkOk(b, c, w, keep) && AllAbove(keep, sp)
    requires w.s.regs.bp == bp && w.s.regs.sp == sp && BlockOf(c, w) <= |c.body| && Stands(w.s, Pos(b, c, BlockOf(c, w)))
    ensures Kept(b, c, w, bp, sp, keep)
    decreases w
  {
    hide CodeThere, Pos, Run, Reaches, AllAbove, Spared, Allowed, Follows, BlockCode, FrameOk, FrameLevel, ComesBack;
    match w
    case Leave(s) => ReachesSelf(b.img, s);
      NothingSpared(s, keep);
    case Step(s, i, call, rest) =>
      StepKeeps(b, c, w, bp, sp, keep);
      WalkKeeps(b, c, rest, bp, sp, keep);
      ReachesTrans(b.img, s, rest.s, Last(rest));
      SparedTrans(keep, s.mem, rest.s.mem, Last(rest).mem);
  }

  lemma NothingSpared(s: State, keep: iset<u16>)
    ensures Spared(keep, s.mem, s.mem)
  {
  }

  lemma SparedTrans(keep: iset<u16>, m: Memory, n: Memory, r: Memory)
    requires Spared(keep, m, n) && Spared(keep, n, r)
    ensures Spared(keep, m, r)
  {
  }

  /** One block of a walk, calls included. */
  lemma {:induction false} StepKeeps(b: Build, c: Code, w: Walk, bp: int, sp: int, keep: iset<u16>)
    requires CodeThere(b, c) && w.Step? && WalkOk(b, c, w, keep) && AllAbove(keep, sp)
    requires w.s.regs.bp == bp && w.s.regs.sp == sp && Stands(w.s, Pos(b, c, w.i))
    ensures w.rest.s.regs.bp == bp && w.rest.s.regs.sp == sp
    ensures BlockOf(c, w.rest) <= |c.body| && Stands(w.rest.s, Pos(b, c, BlockOf(c, w.rest)))
    ensures Spared(keep, w.s.mem, w.rest.s.mem) && Reaches(b.img, w.s, w.rest.s)
    ensures w.call.Emitted? && c.body[w.i].CallB? ==> FrameLevel(b, w.call.frame)
    decreases w, 0
  {
    hide CodeThere, Pos, Run, Reaches, AllAbove, Spared, Allowed, BlockCode, FrameOk, FrameLevel, ComesBack;
    var s, i, t := w.s, w.i, w.rest.s;
    if !c.body[i].CallB? {
      BlockSteady(b, c, i, BlockOf(c, w.rest), s, t, keep);
      RunReaches(b.img, s, t, |BlockCode(b.o, c.lay, c.body[i])|);
    } else {
      var entry := if w.call.Emitted? then w.call.frame.entry else w.call.entry;
      PassSteady(b, c, i, s, entry, keep);
      RunReaches(b.img, s, entry, |BlockCode(b.o, c.lay, c.body[i])|);
      if w.call.Emitted? {
        LowerAbove(keep, sp, entry.regs.sp);
        CodeFits(b, c);
        FrameKeeps(b, w.call.frame, keep);
      }
      BackAt(s, entry, t);
      ReachesTrans(b.img, s, entry, t);
      SparedTrans(keep, s.mem, entry.mem, t.mem);
    }
  }

  lemma LowerAbove(keep: iset<u16>, sp: int, lower: int)
    requires AllAbove(keep, sp) && lower <= sp
    ensures AllAbove(keep, lower)
  {
  }

  lemma BackAt(s: State, entry: State, t: State)
    requires ComesBack(entry, t) && entry.regs.sp == s.regs.sp - 2 && entry.regs.bp == s.regs.bp
    ensures t.regs.sp == s.regs.sp && t.regs.bp == s.regs.bp && t.regs.ip == Read16(entry.mem, entry.regs.sp)
  {
  }

  /** The frame is up where the walk starts. */
  lemma Opened(b: Build, fr: Frame, keep: iset<u16>)
    requires b.img.Fits() && FrameOk(b, fr, keep) && AllAbove(keep, fr.entry.regs.sp)
    ensures var c, s, t, sp := fr.code, fr.entry, fr.walk.s, fr.entry.regs.sp;
            && CodeThere(b, c) && t.regs.bp == sp - 10 && t.regs.sp == sp - 10 - FrameSize(c.slots)
            && Stands(t, Pos(b, c, 0)) && Saved(s, sp - 10, t.mem) && Read16(t.mem, sp) == Read16(s.mem, sp)
            && AllAbove(keep + SavedArea(sp - 10), t.regs.sp)
            && Spared(keep, s.mem, t.mem) && Reaches(b.img, s, t)
            && t.regs.g == s.regs.g && t.regs.cf == s.regs.cf && SameAbove(s.mem, t.mem, sp)
  {
    hide Pos, Run, Reaches, WalkOk, Loaded, Saved, At, Size, Opening, EmitBlocks, LocalBlocks;
    var c, s := fr.code, fr.entry;
    var u := UnitOfCode(b, c);
    CodeParts(b, c);
    OpeningIs(b, c);
    var t := EntryTakes(u, c.slots, c.at, s);
    RunReaches(b.img, s, t, Size(u, Opening(c)));
    WordAbove(s.mem, t.mem, s.regs.sp);
  }

  lemma OpeningIs(b: Build, c: Code)
    ensures Opening(c) == [Preamble] + LocalBlocks(c.slots)
    ensures Pos(b, c, 0) == c.at + Count(EmitBlocks(b.o, c.lay, Opening(c)))
  {
    assert Opening(c) + c.body[..0] == Opening(c);
  }

  lemma WordAbove(m: Memory, n: Memory, a: int)
    requires SameAbove(m, n, a) && 0 <= a < 0xffff
    ensures Read16(n, a) == Read16(m, a)
  {
    assert m[a] == n[a] && m[a + 1] == n[a + 1];
  }

  /** What the preamble saved still stands at the end of the walk. */
  lemma AreaStands(s: State, sp: int, m: Memory, n: Memory, keep: iset<u16>)
    requires Saved(s, sp - 10, m) && Spared(keep + SavedArea(sp - 10), m, n) && 10 <= sp < 0xffff
    ensures Saved(s, sp - 10, n) && Read16(n, sp) == Read16(m, sp) && Spared(keep, m, n)
  {
    forall a: u16 | sp - 10 <= a < sp + 2 ensures m[a] == n[a] {
      assert a in keep + SavedArea(sp - 10);
    }
    assert forall a :: sp - 10 <= a < sp + 2 ==> m[a] == n[a];
    assert forall a :: a in keep ==> a in keep + SavedArea(sp - 10);
  }

  /** The way out: epilogue and `ret`. */
  lemma Closed(b: Build, fr: Frame, keep: iset<u16>)
    requires b.img.Fits() && FrameOk(b, fr, keep)
    requires var last, sp := Last(fr.walk), fr.entry.regs.sp;
             && last.regs.bp == sp - 10 && Stands(last, Pos(b, fr.code, |fr.code.body|)) && Saved(fr.entry, sp - 10, last.mem)
             && Read16(last.mem, sp) == Read16(fr.entry.mem, sp)
    ensures ComesBack(fr.entry, fr.exit) && fr.exit.mem == Last(fr.walk).mem && Reaches(b.img, Last(fr.walk), fr.exit)
    ensures fr.exit.regs.cf == Last(fr.walk).regs.cf
    ensures forall i :: 0 <= i < 4 ==> fr.exit.regs.g[i] == Last(fr.walk).regs.g[i]
  {
    hide Pos, Run, Reaches, WalkOk, Loaded, Saved, At, Size, ComesBack, MarksAt;
    CodeParts(b, fr.code);
    var t := ExitTakes(UnitOfCode(b, fr.code), fr.entry, Pos(b, fr.code, |fr.code.body|), Last(fr.walk));
    RunReaches(b.img, Last(fr.walk), t, 7);
  }

  lemma FrameParts(b: Build, fr: Frame, keep: iset<u16>)
    requires FrameOk(b, fr, keep)
    ensures BlockOf(fr.code, fr.walk) == 0 && WalkOk(b, fr.code, fr.walk, keep + SavedArea(fr.entry.regs.sp - 10))
    ensures b.img.Fits() ==> 10 <= fr.entry.regs.sp < 0xffff
    ensures var c, sp := fr.code, fr.entry.regs.sp;
            Level(b, c, fr.walk, sp - 10, sp - 10 - FrameSize(c.slots)) ==> FrameLevel(b, fr)
  {
    hide WalkOk, Loaded, Run, Level, SavedArea, EmitBlocks, LocalBlocks;
  }

  lemma KeptParts(b: Build, c: Code, w: Walk, bp: int, sp: int, keep: iset<u16>)
    requires Kept(b, c, w, bp, sp, keep)
    ensures Level(b, c, w, bp, sp) && Spared(keep, w.s.mem, Last(w).mem) && Reaches(b.img, w.s, Last(w))
    ensures Last(w).regs.bp == bp && Last(w).regs.sp == sp && Stands(Last(w), Pos(b, c, |c.body|))
  {
    hide Level, Spared, Reaches, Pos, Last;
  }

  /**
   The calling convention for any emitted body. As long as no store of the activation, nor
   of any it calls, hits a saved area of an activation still open, and code from elsewhere
   obeys the convention too, bp and sp stand at every block boundary of every activation,
   and each comes back to its caller with ip, sp, bp and r4 to r7 as the caller needs them.
   */
  lemma {:induction false} FrameKeeps(b: Build, fr: Frame, keep: iset<u16>)
    requires b.img.Fits() && FrameOk(b, fr, keep) && AllAbove(keep, fr.entry.regs.sp)
    ensures FrameLevel(b, fr) && ComesBack(fr.entry, fr.exit)
    ensures Spared(keep, fr.entry.mem, fr.exit.mem) && Reaches(b.img, fr.entry, fr.exit)
    decreases fr
  {
    hide *;
    var c, s, sp := fr.code, fr.entry, fr.entry.regs.sp;
    var mine := keep + SavedArea(sp - 10);
    FrameParts(b, fr, keep);
    Opened(b, fr, keep);
    WalkKeeps(b, c, fr.walk, sp - 10, sp - 10 - FrameSize(c.slots), mine);
    KeptParts(b, c, fr.walk, sp - 10, sp - 10 - FrameSize(c.slots), mine);
    AreaStands(s, sp, fr.walk.s.mem, Last(fr.walk).mem, keep);
    Closed(b, fr, keep);
    ReachesTrans(b.img, s, fr.walk.s, Last(fr.walk));
    ReachesTrans(b.img, s, Last(fr.walk), fr.exit);
    SparedTrans(keep, s.mem, fr.walk.s.mem, fr.exit.mem);
  }

  /** Every address from sp up. */
  ghost function FromSp(sp: u16): iset<u16> {
    iset a: u16 | IsFrom(a, sp)
  }

  predicate IsFrom(a: u16, sp: u16) {
    sp <= a
  }

  /** Where no store of a run goes above the entry sp, nothing there changes either. */
  lemma StaysBelow(b: Build, fr: Frame)
    requires b.img.Fits() && FrameOk(b, fr, FromSp(fr.entry.regs.sp))
    ensures FrameLevel(b, fr) && ReturnsTo(fr.entry, fr.exit) && Reaches(b.img, fr.entry, fr.exit)
  {
    hide FrameOk, FrameLevel, Reaches, ComesBack;
    FrameKeeps(b, fr, FromSp(fr.entry.regs.sp));
    forall a: u16 | fr.entry.regs.sp <= a ensures fr.entry.mem[a] == fr.exit.mem[a] {
      assert a in FromSp(fr.entry.regs.sp);
    }
    assert forall a :: 0 <= a < 0x1_0000 && fr.entry.regs.sp <= a ==> fr.entry.mem[a] == fr.exit.mem[a];
  }

  /** A compiled function is such code: its body is what stands between locals and epilogue,
      and every jump's label is placed in it. */
  lemma CompiledIsCode(o: Options, f: Func, at: nat) returns (c: Code)
    ensures c == Code(FuncLayout(f), f.name, FuncSlots(f), ArgBlocks(f.params) + StmtsBlocks(f.body, 0, 0) + [LabelB(EXIT)], at)
    ensures CodeLines(o, c) == FuncLines(o, f) && LabelsPlaced(c)
  {
    hide EmitBlocks, LocalBlocks, ArgBlocks, StmtsBlocks, FuncSlots;
    c := Code(FuncLayout(f), f.name, FuncSlots(f), ArgBlocks(f.params) + StmtsBlocks(f.body, 0, 0) + [LabelB(EXIT)], at);
    JumpsPlaced(f);
    assert Opening(c) + c.body + [Epilogue] == FuncBlocks(f);
  }
}
