/**
 Jumps, labels and the fixed code around a function body: what they do to the machine.
 */
module SimCode {
  import opened Words
  import opened Machine
  import opened Images
  import opened Values
  import opened Emit
  import opened ExprProof
  import opened Compile
  import opened FuncCode
  import opened SimBase
  import opened Traces

  /** The address a local label of the function names. */
  ghost predicate LabelIs(u: Unit, name: string, k: nat) {
    u.names.Full("@" + name) in u.names.addr && u.names.addr[u.names.Full("@" + name)] == 4 * k
  }

  lemma LabelAt(u: Unit, name: string, k: nat)
    requires At(u, [LabelB(name)], k)
    ensures LabelIs(u, name, k) && Size(u, [LabelB(name)]) == 0
  {
    AtOne(u, LabelB(name), k);
    var line := Label("@" + name);
    assert [line][1..] == [] && Count([]) == 0;
  }

  /** Only ip and cf may differ. */
  predicate OnlyMoved(s: State, t: State) {
    t.mem == s.mem && t.regs == s.regs.(ip := t.regs.ip, cf := t.regs.cf)
  }

  lemma MovedInFrame(u: Unit, s: State, t: State, w: Store)
    requires InFrame(u, s, w) && OnlyMoved(s, t)
    ensures InFrame(u, t, w) && SameAbove(s.mem, t.mem, u.bp)
  {
  }

  /** One loaded instruction, executed. */
  lemma LoadedStep(u: Unit, i: Instr, m: Mark, k: nat, s: State, t: State)
    requires Loaded([Ins(i)], k, u.img, u.names) && Stands(s, k) && MarksAt(u.marks, k, [m])
    requires Exec(Resolve(u.names, i), s, u.img.lim) == Next(t)
    ensures Takes(u.img, u.marks, s, t, 1, Show(m, t)) && Goes(u, s, t, Show(m, t))
  {
    hide Exec, Resolve, Takes, Show;
    assert Fetch(u.img, s) == Next(t);
    TakesStep(u.img, u.marks, s, t);
    assert u.marks[k] == [m][0];
  }

  lemma AlwaysJump(u: Unit, dest: string, target: nat, k: nat, s: State) returns (t: State)
    requires At(u, [JmpB(Always, dest)], k) && Stands(s, k) && LabelIs(u, dest, target)
    ensures Goes(u, s, t, []) && OnlyMoved(s, t) && Stands(t, target)
  {
    hide Goes, At, MarksAt;
    AtOne(u, JmpB(Always, dest), k);
    t := s.(regs := s.regs.(ip := 4 * target));
    assert Lines(JmpCode(Always, dest)) == [Ins(Jmp(SSym("@" + dest)))];
    assert EndMarks(NoMark, 1) == [NoMark];
    LoadedStep(u, Jmp(SSym("@" + dest)), NoMark, k, s, t);
  }

  /** `jeq`: taken exactly when the compare flag is set, which is what it shows. */
  lemma EqJump(u: Unit, dest: string, target: nat, k: nat, s: State) returns (t: State)
    requires Loaded([Ins(Jeq(SSym("@" + dest)))], k, u.img, u.names) && Stands(s, k) && LabelIs(u, dest, target)
    requires 4 * k + 4 < 0x1_0000 && MarksAt(u.marks, k, [FlagMark])
    ensures Goes(u, s, t, [EvFlag(s.regs.cf)]) && OnlyMoved(s, t)
    ensures Stands(t, if s.regs.cf then target else k + 1)
  {
    hide Goes, MarksAt;
    t := s.(regs := s.regs.(ip := if s.regs.cf then 4 * target else 4 * k + 4));
    LoadedStep(u, Jeq(SSym("@" + dest)), FlagMark, k, s, t);
  }

  /** The code of a conditional jump block, how long it is, and where the flag is looked at. */
  lemma CondCode(u: Unit, equal: bool, dest: string, k: nat)
    requires At(u, [JmpB(if equal then Eq else Neq, dest)], k)
    ensures var n := if equal then 0 else 1;
            && Loaded([Ins(Jeq(SSym("@" + dest)))], k + n, u.img, u.names)
            && (!equal ==> Loaded([Ins(Cfs)], k, u.img, u.names) && MarksAt(u.marks, k, [NoMark]))
            && MarksAt(u.marks, k + n, [FlagMark])
            && Size(u, [JmpB(if equal then Eq else Neq, dest)]) == n + 1 && k + n < |u.img.ins|
  {
    hide Resolve, At, MarksAt;
    var b := JmpB(if equal then Eq else Neq, dest);
    AtOne(u, b, k);
    CountLines(BlockCode(u.o, u.lay, b));
    var jeq := Jeq(SSym("@" + dest));
    if equal {
      assert Lines(JmpCode(Eq, dest)) == [Ins(jeq)];
      assert EndMarks(FlagMark, 1) == [FlagMark];
    } else {
      assert EndMarks(FlagMark, 2) == [NoMark] + [FlagMark];
      MarksAppend(u.marks, k, [NoMark], [FlagMark]);
      assert Lines(JmpCode(Neq, dest)) == [Ins(Cfs)] + [Ins(jeq)];
      LoadedAppend([Ins(Cfs)], [Ins(jeq)], k, u.img, u.names);
      var line := Ins(Cfs);
      assert [line][1..] == [] && Count([]) == 0;
    }
  }

  /** A conditional jump of either kind: it shows whether the comparison came out as asked. */
  lemma CondJump(u: Unit, equal: bool, dest: string, target: nat, k: nat, s: State) returns (t: State)
    requires At(u, [JmpB(if equal then Eq else Neq, dest)], k) && Stands(s, k) && LabelIs(u, dest, target)
    requires u.img.Fits()
    ensures Goes(u, s, t, [EvFlag(s.regs.cf == equal)]) && OnlyMoved(s, t)
    ensures Stands(t, if s.regs.cf == equal then target else k + Size(u, [JmpB(if equal then Eq else Neq, dest)]))
  {
    hide Loaded, At, Size, LabelIs, Goes, MarksAt;
    CondCode(u, equal, dest, k);
    if equal {
      t := EqJump(u, dest, target, k, s);
    } else {
      var s1 := Bump(s.(regs := s.regs.(cf := !s.regs.cf)));
      LoadedStep(u, Cfs, NoMark, k, s, s1);
      t := EqJump(u, dest, target, k + 1, s1);
      GoesOn(u, s, s1, t, [EvFlag(s1.regs.cf)]);
    }
  }

  // Preamble and epilogue --------------------------------------------------------

  /** The caller's bp and r4 to r7 as the preamble saves them, from bp up. */
  predicate Saved(s: State, bp: int, m: Memory) {
    && 0 <= bp && bp + 10 < 0x1_0000
    && Read16(m, bp + 8) == s.regs.bp
    && Read16(m, bp + 6) == s.regs.g[4] && Read16(m, bp + 4) == s.regs.g[5]
    && Read16(m, bp + 2) == s.regs.g[6] && Read16(m, bp) == s.regs.g[7]
  }

  lemma PushOne(names: Names, r: Reg, s: State, lim: int) returns (t: State)
    requires Room(s, 1) && 0 <= lim <= s.regs.sp - 2 && !r.IsHalf()
    ensures Runs(names, [Push(r)], s, t, lim)
    ensures t == State(s.regs.(sp := s.regs.sp - 2, ip := s.regs.ip + 4),
                       Write16(s.mem, s.regs.sp - 2, RLoad(s.regs, r)))
  {
    t := State(s.regs.(sp := s.regs.sp - 2, ip := s.regs.ip + 4),
               Write16(s.mem, s.regs.sp - 2, RLoad(s.regs, r)));
    RunsOne(names, Push(r), s, t, lim);
  }

  lemma PopOne(names: Names, r: Reg, s: State, lim: int) returns (t: State)
    requires Room(s, 1) && s.regs.sp + 2 < 0x1_0000 && !r.IsHalf() && r != SP && r != IP
    ensures Runs(names, [Pop(r)], s, t, lim)
    ensures t.mem == s.mem
    ensures t.regs == RStore(s.regs.(sp := s.regs.sp + 2, ip := s.regs.ip + 4), r, Read16(s.mem, s.regs.sp))
  {
    t := s.(regs := RStore(s.regs.(sp := s.regs.sp + 2, ip := s.regs.ip + 4), r, Read16(s.mem, s.regs.sp)));
    RunsOne(names, Pop(r), s, t, lim);
  }

  lemma CopyOne(names: Names, dst: Reg, src: Reg, s: State, lim: int) returns (t: State)
    requires Room(s, 1) && (dst == SP || dst == BP) && (src == SP || src == BP)
    ensures Runs(names, [MovReg(dst, src)], s, t, lim)
    ensures t == s.(regs := RStore(s.regs, dst, RLoad(s.regs, src)).(ip := s.regs.ip + 4))
  {
    t := s.(regs := RStore(s.regs, dst, RLoad(s.regs, src)).(ip := s.regs.ip + 4));
    RunsOne(names, MovReg(dst, src), s, t, lim);
  }

  /** The preamble saves bp and r4 to r7 and makes the frame's bp; everything from the
      entry sp up is as it was. */
  lemma PreambleRuns(names: Names, s: State, lim: int) returns (t: State)
    requires Room(s, 6) && 0 <= lim <= s.regs.sp - 10
    ensures Runs(names, PreambleCode(), s, t, lim)
    ensures t.regs.sp == t.regs.bp == s.regs.sp - 10 && t.regs.g == s.regs.g && t.regs.cf == s.regs.cf
    ensures Saved(s, s.regs.sp - 10, t.mem) && SameAbove(s.mem, t.mem, s.regs.sp)
  {
    hide Exec, RunSeq;
    var s1 := PushOne(names, BP, s, lim);
    var s2 := PushOne(names, R(4), s1, lim);
    var s3 := PushOne(names, R(5), s2, lim);
    var s4 := PushOne(names, R(6), s3, lim);
    var s5 := PushOne(names, R(7), s4, lim);
    t := CopyOne(names, BP, SP, s5, lim);
    RunsThen(names, [Push(BP)], [Push(R(4))], s, s1, s2, lim);
    RunsThen(names, [Push(BP)] + [Push(R(4))], [Push(R(5))], s, s2, s3, lim);
    RunsThen(names, [Push(BP)] + [Push(R(4))] + [Push(R(5))], [Push(R(6))], s, s3, s4, lim);
    RunsThen(names, [Push(BP)] + [Push(R(4))] + [Push(R(5))] + [Push(R(6))], [Push(R(7))], s, s4, s5, lim);
    RunsThen(names, [Push(BP)] + [Push(R(4))] + [Push(R(5))] + [Push(R(6))] + [Push(R(7))],
             [MovReg(BP, SP)], s, s5, t, lim);
    assert PreambleCode() == [Push(BP)] + [Push(R(4))] + [Push(R(5))] + [Push(R(6))] + [Push(R(7))] + [MovReg(BP, SP)];
  }

  /** The epilogue takes sp back to the return address and restores what the preamble saved. */
  lemma EpilogueRuns(names: Names, entry: State, s: State, lim: int) returns (t: State)
    requires Room(s, 6) && Saved(entry, s.regs.bp, s.mem)
    ensures Runs(names, EpilogueCode(), s, t, lim)
    ensures t.regs.sp == s.regs.bp + 10 && t.regs.bp == entry.regs.bp && t.mem == s.mem
    ensures forall i :: 4 <= i < 8 ==> t.regs.g[i] == entry.regs.g[i]
    ensures (forall i :: 0 <= i < 4 ==> t.regs.g[i] == s.regs.g[i]) && t.regs.cf == s.regs.cf
  {
    hide Exec, RunSeq;
    var s1 := CopyOne(names, SP, BP, s, lim);
    var s2 := PopOne(names, R(7), s1, lim);
    var s3 := PopOne(names, R(6), s2, lim);
    var s4 := PopOne(names, R(5), s3, lim);
    var s5 := PopOne(names, R(4), s4, lim);
    t := PopOne(names, BP, s5, lim);
    RunsThen(names, [MovReg(SP, BP)], [Pop(R(7))], s, s1, s2, lim);
    RunsThen(names, [MovReg(SP, BP)] + [Pop(R(7))], [Pop(R(6))], s, s2, s3, lim);
    RunsThen(names, [MovReg(SP, BP)] + [Pop(R(7))] + [Pop(R(6))], [Pop(R(5))], s, s3, s4, lim);
    RunsThen(names, [MovReg(SP, BP)] + [Pop(R(7))] + [Pop(R(6))] + [Pop(R(5))], [Pop(R(4))], s, s4, s5, lim);
    RunsThen(names, [MovReg(SP, BP)] + [Pop(R(7))] + [Pop(R(6))] + [Pop(R(5))] + [Pop(R(4))], [Pop(BP)], s, s5, t, lim);
    assert EpilogueCode() == [MovReg(SP, BP)] + [Pop(R(7))] + [Pop(R(6))] + [Pop(R(5))] + [Pop(R(4))] + [Pop(BP)];
  }

  /** One local block lowers sp by the local's size. */
  lemma LocalRuns(names: Names, size: nat, s: State, t: State, lim: int)
    requires Room(s, 1) && size <= s.regs.sp
    requires t == s.(regs := s.regs.(sp := s.regs.sp - size, ip := s.regs.ip + 4))
    ensures Runs(names, [SubImm(SP, size)], s, t, lim)
  {
    WrapSub(s.regs.sp, size);
    assert Wrap(s.regs.sp - size) == s.regs.sp - size;
    hide RunSeq;
    RunsOne(names, SubImm(SP, size), s, t, lim);
  }

  // Calls --------------------------------------------------------------------------

  /** Where the argument code and the call instruction of a call block stand. */
  lemma CallCode(u: Unit, f: string, vs: seq<Value>, k: nat)
    requires At(u, [CallB(f, vs)], k)
    ensures var code := EmitArgs(u.o, u.lay, vs);
            && Loaded(Lines(code), k, u.img, u.names) && Size(u, [CallB(f, vs)]) == |code| + 1
            && k + |code| < |u.img.ins| && u.img.ins[k + |code|] == Resolve(u.names, Call(SSym(f)))
            && MarksAt(u.marks, k, EndMarks(NoMark, |code|)) && MarksAt(u.marks, k + |code|, [CallMark(f, |vs|)])
  {
    hide EmitArgs, Resolve, At, MarksAt;
    var code := EmitArgs(u.o, u.lay, vs);
    AtOne(u, CallB(f, vs), k);
    assert Lines(code + [Call(SSym(f))]) == Lines(code) + [Ins(Call(SSym(f)))];
    LoadedAppend(Lines(code), [Ins(Call(SSym(f)))], k, u.img, u.names);
    CountLines(code);
    assert EndMarks(CallMark(f, |vs|), |code| + 1) == EndMarks(NoMark, |code|) + [CallMark(f, |vs|)];
    MarksAppend(u.marks, k, EndMarks(NoMark, |code|), [CallMark(f, |vs|)]);
    CountLines(code + [Call(SSym(f))]);
  }

  lemma CallExec(addr: u16, s: State, lim: int)
    requires 0 <= lim <= s.regs.sp - 2 && s.regs.ip + 4 < 0x1_0000
    ensures Exec(Call(SImm(addr)), s, lim)
         == Next(State(s.regs.(ip := addr, sp := s.regs.sp - 2), Write16(s.mem, s.regs.sp - 2, s.regs.ip + 4)))
  {
  }

  lemma SavedKeeps(s: State, bp: int, m: Memory, n: Memory)
    requires Saved(s, bp, m) && SameAbove(m, n, bp)
    ensures Saved(s, bp, n)
  {
    assert forall a :: bp <= a < bp + 10 ==> m[a] == n[a];
  }
}
