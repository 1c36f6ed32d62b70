/**
 The CPU as an object that instructions change in place: registers, memory, the register
 cache and the interrupt flags, each method proved against the step functions.
 */
module CpuCore {
  import opened Words
  import opened Machine
  import opened Encoding
  import opened Interrupts

  /** How an instruction left the loop: normally, with a CPU fault, or outside the model. */
  datatype Exit = Fine | Trap(code: int) | Unknown

  predicate Matches(e: Exit, s: State, o: Outcome) {
    match o
    case Next(t) => e == Fine && s == t
    case Fault(code) => e == Trap(code)
    case Wild => e == Unknown
  }

  function Shifted(left: bool, x: u16, c: u8): u16 {
    if left then Wrap(x * Pow2(c)) else Wrap(x / Pow2(c))
  }

  lemma ShiftExec(left: bool, dst: Reg, src: Src, s: State)
    ensures Exec(if left then Shl(dst, src) else Shr(dst, src), s, 0) ==
            match ShiftCount(s, src)
            case Some(c) => if c < 16 then Next(Bump(SetReg(s, dst, Shifted(left, RLoad(s.regs, dst), c)))) else Wild
            case None => Wild
  {
    hide RLoad, RStore, Pow2, Wrap, ShiftCount;
  }

  /** The instructions that touch nothing but the compare flag. */
  lemma FlagExec(i: Instr, s: State)
    requires i.CmgByte? || i.CmlByte? || i.Cfs? || i.Nop? || i.Sti? || i.Dsi?
    ensures var cf := match i
                      case CmgByte(r, n) => Lo(RLoad(s.regs, r)) > n
                      case CmlByte(r, n) => Lo(RLoad(s.regs, r)) < n
                      case Cfs => !s.regs.cf
                      case _ => s.regs.cf;
            Exec(i, s, 0) == Next(Bump(s.(regs := s.regs.(cf := cf))))
  {
    hide RLoad;
  }

  class Core {
    const mem: array<u8>
    const g: array<u16>
    var ip: u16
    var sp: u16
    var bp: u16
    var cf: bool
    var cache: Regs
    var interrupts: bool
    var inInterrupt: bool

    ghost predicate Valid()
      reads this
    {
      mem.Length == 0x1_0000 && g.Length == 8 && (mem as object) != g
    }

    ghost function State(): (s: Machine.State)
      requires Valid()
      reads this, mem, g
    {
      Machine.State(Regs(g[..], ip, sp, bp, cf), mem[..])
    }

    ghost function Abs(): (c: Cpu)
      requires Valid()
      reads this, mem, g
    {
      Cpu(State(), cache, interrupts, inInterrupt)
    }

    /** All registers are cleared and interrupts are off. */
    constructor (image: Memory)
      ensures Valid() && fresh(mem) && fresh(g)
      ensures Abs() == Cpu(Machine.State(Regs(seq(8, _ => 0), 0, 0, 0, false), image),
                           Regs(seq(8, _ => 0), 0, 0, 0, false), false, false)
    {
      mem := new u8[0x1_0000](i requires 0 <= i < 0x1_0000 => image[i]);
      g := new u16[8](_ => 0);
      ip, sp, bp, cf := 0, 0, 0, false;
      cache := Regs(seq(8, _ => 0), 0, 0, 0, false);
      interrupts, inInterrupt := false, false;
      new;
      assert mem[..] == image;
      assert g[..] == seq(8, _ => 0);
    }

    method Load(id: Reg) returns (v: u16)
      requires Valid()
      ensures v == RLoad(State().regs, id)
    {
      match id
      case R(n) => v := g[n];
      case H(n) => v := Lo(g[n]);
      case L(n) => v := Hi(g[n]);
      case IP => v := ip;
      case SP => v := sp;
      case BP => v := bp;
    }

    method Put(id: Reg, v: u16)
      requires Valid()
      modifies this`ip, this`sp, this`bp, g
      ensures Valid() && Abs() == old(Abs()).(st := SetReg(old(State()), id, v))
    {
      match id
      case R(n) => g[n] := v;
      case H(n) => g[n] := Word(Lo(v), Hi(g[n]));
      case L(n) => g[n] := Word(Lo(g[n]), Lo(v));
      case IP => ip := v;
      case SP => sp := v;
      case BP => bp := v;
      assert Regs(g[..], ip, sp, bp, cf) == RStore(old(State()).regs, id, v);
    }

    method Write16At(a: u16, v: u16)
      requires Valid() && a < 0xffff
      modifies mem
      ensures Valid() && Abs() == old(Abs()).(st := old(State()).(mem := Write16(old(State()).mem, a, v)))
    {
      mem[a] := Lo(v);
      mem[a + 1] := Hi(v);
      assert mem[..] == Write16(old(mem[..]), a, v);
    }

    method Write8At(a: u16, v: u8)
      requires Valid()
      modifies mem
      ensures Valid() && Abs() == old(Abs()).(st := old(State()).(mem := old(State()).mem[a := v]))
    {
      mem[a] := v;
      assert mem[..] == old(mem[..])[a := v];
    }

    method PushWord(v: u16) returns (e: Exit)
      requires Valid()
      modifies this`sp, mem
      ensures Valid() && Matches(e, State(), Push16(old(State()), v, 0))
      ensures Abs() == old(Abs()).(st := State())
    {
      if sp == 0 {
        return Trap(FAULT_SEG);
      }
      var a := Wrap(sp - 2);
      if a == 0xffff {
        return Unknown;
      }
      sp := a;
      Write16At(a, v);
      return Fine;
    }

    method PushByte(v: u8) returns (e: Exit)
      requires Valid()
      modifies this`sp, mem
      ensures Valid() && Matches(e, State(), Push8(old(State()), v, 0))
      ensures Abs() == old(Abs()).(st := State())
    {
      if sp == 0 {
        return Trap(FAULT_SEG);
      }
      sp := sp - 1;
      Write8At(sp, v);
      return Fine;
    }

    method PopInto(r: Reg) returns (e: Exit)
      requires Valid()
      modifies this`ip, this`sp, this`bp, g
      ensures Valid() && Abs() == old(Abs()).(st := State())
      ensures e.Fine? ==> Exec(Pop(r), old(State()), 0) == Next(Bump(State()))
      ensures !e.Fine? ==> e == Unknown && Exec(Pop(r), old(State()), 0) == Wild
    {
      var v: u16;
      if r.IsHalf() {
        v := mem[sp];
        sp := Wrap(sp + 1);
      } else {
        if sp == 0xffff {
          return Unknown;
        }
        v := Word(mem[sp], mem[sp + 1]);
        sp := Wrap(sp + 2);
      }
      Put(r, v);
      return Fine;
    }

    method LoadAt(dst: Reg, a: u16) returns (e: Exit)
      requires Valid()
      modifies this`ip, this`sp, this`bp, g
      ensures Valid() && Matches(e, State(), ExecLoad(dst, a, old(State())))
      ensures Abs() == old(Abs()).(st := State())
    {
      if dst.IsHalf() {
        Put(dst, mem[a]);
      } else {
        if a == 0xffff {
          return Unknown;
        }
        Put(dst, Word(mem[a], mem[a + 1]));
      }
      return Fine;
    }

    method StoreAt(reg: Reg, a: u16) returns (e: Exit)
      requires Valid()
      modifies mem
      ensures Valid() && Matches(e, State(), ExecStore(reg, a, old(State()), 0))
      ensures Abs() == old(Abs()).(st := State())
    {
      var v := Load(reg);
      if reg.IsHalf() {
        Write8At(a, Lo(v));
      } else {
        if a == 0xffff {
          return Unknown;
        }
        Write16At(a, v);
      }
      return Fine;
    }

    method Operate(op: TwoOp, dst: Reg, y: u16)
      requires Valid()
      modifies this`ip, this`sp, this`bp, this`cf, g
      ensures Valid() && Abs() == old(Abs()).(st := ExecTwo(op, dst, y, old(State())))
    {
      var x := Load(dst);
      if IsCompare(op) {
        cf := Compare(op, x, y);
      } else {
        Put(dst, Arith(op, x, y));
      }
    }

    /** Steps over the instruction if it went well. */
    method Advance(e: Exit)
      requires Valid()
      modifies this`ip
      ensures Valid() && Abs() == old(Abs()).(st := if e.Fine? then Bump(old(State())) else old(State()))
    {
      if e.Fine? {
        ip := Wrap(ip + 4);
      }
    }

    method ExecuteStack(i: Instr) returns (e: Exit)
      requires Valid() && (i.Push? || i.PushImm8? || i.PushImm16? || i.Pop? || i.Ret?)
      modifies this`ip, this`sp, this`bp, mem, g
      ensures Valid() && Matches(e, State(), Exec(i, old(State()), 0))
      ensures Abs() == old(Abs()).(st := State())
    {
      match i
      case Push(r) =>
        var v := Load(r);
        if r.IsHalf() {
          e := PushByte(Lo(v));
        } else {
          e := PushWord(v);
        }
        Advance(e);
      case PushImm8(v) =>
        e := PushByte(v);
        Advance(e);
      case PushImm16(v) =>
        e := PushWord(v);
        Advance(e);
      case Pop(r) =>
        e := PopInto(r);
        Advance(e);
      case Ret =>
        if sp == 0xffff {
          return Unknown;
        }
        ip, sp := Word(mem[sp], mem[sp + 1]), Wrap(sp + 2);
        e := Fine;
    }

    method ExecuteMemory(i: Instr) returns (e: Exit)
      requires Valid() && (i.Load? || i.Store?)
      modifies this`ip, this`sp, this`bp, mem, g
      ensures Valid() && Matches(e, State(), Exec(i, old(State()), 0))
      ensures Abs() == old(Abs()).(st := State())
    {
      var a: u16;
      match i.src {
        case SReg(p) =>
          if p.IsHalf() {
            return Trap(FAULT_REG);
          }
          a := Load(p);
        case SImm(v) => a := Wrap(v);
        case SSym(_) => return Unknown;
      }
      if i.Load? {
        e := LoadAt(i.dst, a);
      } else {
        e := StoreAt(i.reg, a);
      }
      Advance(e);
    }

    /** The operand of a register or immediate form. */
    method Operand(src: Src) returns (y: Option<u16>)
      requires Valid()
      ensures y == match src
                   case SReg(r) => Some(RLoad(State().regs, r))
                   case SImm(v) => Some(Wrap(v))
                   case SSym(_) => None
    {
      match src
      case SReg(r) =>
        var v := Load(r);
        y := Some(v);
      case SImm(v) => y := Some(Wrap(v));
      case SSym(_) => y := None;
    }

    method ExecuteTwo(op: TwoOp, dst: Reg, src: Src) returns (e: Exit)
      requires Valid()
      modifies this`ip, this`sp, this`bp, this`cf, g
      ensures Valid() && Matches(e, State(), Exec(Two(op, dst, src), old(State()), 0))
      ensures Abs() == old(Abs()).(st := State())
    {
      hide ExecTwo;
      var y := Operand(src);
      if y.None? {
        return Unknown;
      }
      Operate(op, dst, y.value);
      e := Fine;
      Advance(e);
    }

    method ExecuteShift(left: bool, dst: Reg, src: Src) returns (e: Exit)
      requires Valid()
      modifies this`ip, this`sp, this`bp, g
      ensures Valid() && Matches(e, State(), Exec(if left then Shl(dst, src) else Shr(dst, src), old(State()), 0))
      ensures Abs() == old(Abs()).(st := State())
    {
      hide Pow2, RStore, RLoad, Wrap, Exec, Lo, SetReg, Bump;
      ShiftExec(left, dst, src, State());
      var c: u8;
      match src {
        case SReg(r) =>
          var v := Load(r);
          c := Lo(v);
        case SImm(v) => c := v % 0x100;
        case SSym(_) => return Unknown;
      }
      if c >= 16 {
        return Unknown;
      }
      var x := Load(dst);
      Put(dst, Shifted(left, x, c));
      e := Fine;
      Advance(e);
    }

    method ExecuteFlag(i: Instr)
      requires Valid() && (i.CmgByte? || i.CmlByte? || i.Cfs? || i.Nop? || i.Sti? || i.Dsi?)
      modifies this`ip, this`cf
      ensures Valid() && Exec(i, old(State()), 0) == Next(State())
      ensures Abs() == old(Abs()).(st := State())
    {
      hide Exec, RLoad, Wrap, Bump;
      FlagExec(i, State());
      match i {
        case CmgByte(r, n) =>
          var v := Load(r);
          cf := Lo(v) > n;
        case CmlByte(r, n) =>
          var v := Load(r);
          cf := Lo(v) < n;
        case Cfs => cf := !cf;
        case _ =>
      }
      Advance(Fine);
    }

    method ExecuteUnary(i: Instr) returns (e: Exit)
      requires Valid() && (i.Null? || i.Not? || i.CmgByte? || i.CmlByte? || i.Cfs? || i.Nop? || i.Sti? || i.Dsi?)
      modifies this`ip, this`sp, this`bp, this`cf, g
      ensures Valid() && Matches(e, State(), Exec(i, old(State()), 0))
      ensures Abs() == old(Abs()).(st := State())
    {
      hide RLoad, RStore, SetReg, Bump;
      e := Fine;
      if i.Null? {
        Put(i.reg, 0);
        Advance(e);
      } else if i.Not? {
        var v := Load(i.reg);
        Put(i.reg, 0xffff - v);
        Advance(e);
      } else {
        hide Exec;
        ExecuteFlag(i);
      }
    }

    method ExecuteJump(i: Instr) returns (e: Exit)
      requires Valid() && (i.Jmp? || i.Jeq? || i.Jnz?)
      modifies this`ip
      ensures Valid() && Matches(e, State(), Exec(i, old(State()), 0))
      ensures Abs() == old(Abs()).(st := State())
    {
      e := Fine;
      match i {
        case Jmp(SImm(a)) => ip := Wrap(a);
        case Jeq(SImm(a)) => ip := if cf then Wrap(a) else Wrap(ip + 4);
        case Jnz(r, SImm(a)) =>
          var v := Load(r);
          ip := if v != 0 then Wrap(a) else Wrap(ip + 4);
        case _ => e := Unknown;
      }
    }

    method ExecuteCall(i: Instr) returns (e: Exit)
      requires Valid() && (i.Call? || i.CallR?)
      modifies this`ip, this`sp, mem
      ensures Valid() && Matches(e, State(), Exec(i, old(State()), 0))
      ensures Abs() == old(Abs()).(st := State())
    {
      e := Fine;
      match i {
        case Call(SImm(a)) =>
          e := PushWord(Wrap(ip + 4));
          if e.Fine? {
            ip := Wrap(a);
          }
        case CallR(r) =>
          if r.IsHalf() {
            return Unknown;
          }
          e := PushWord(Wrap(ip + 4));
          if e.Fine? {
            var a := Load(r);
            ip := a;
          }
        case _ => e := Unknown;
      }
    }

    /** One decoded instruction, as `Exec` defines it. */
    method Execute(i: Instr) returns (e: Exit)
      requires Valid()
      modifies this`ip, this`sp, this`bp, this`cf, mem, g
      ensures Valid() && Matches(e, State(), Exec(i, old(State()), 0))
      ensures Abs() == old(Abs()).(st := State())
    {
      hide RLoad, RStore, ExecTwo, ExecLoad, ExecStore, Push16, Push8, ShiftCount;
      match i
      case Push(_) => e := ExecuteStack(i);
      case PushImm8(_) => e := ExecuteStack(i);
      case PushImm16(_) => e := ExecuteStack(i);
      case Pop(_) => e := ExecuteStack(i);
      case Ret => e := ExecuteStack(i);
      case Load(_, _) => e := ExecuteMemory(i);
      case Store(_, _) => e := ExecuteMemory(i);
      case Two(op, dst, src) => e := ExecuteTwo(op, dst, src);
      case Shr(dst, src) => e := ExecuteShift(false, dst, src);
      case Shl(dst, src) => e := ExecuteShift(true, dst, src);
      case CpuCall => e := Unknown;
      case Rti => e := Unknown;
      case Jmp(_) => e := ExecuteJump(i);
      case Jeq(_) => e := ExecuteJump(i);
      case Jnz(_, _) => e := ExecuteJump(i);
      case Call(_) => e := ExecuteCall(i);
      case CallR(_) => e := ExecuteCall(i);
      case _ => e := ExecuteUnary(i);
    }

    method IssueInterrupt(addr: u16)
      requires Valid()
      modifies this`ip, this`cache, this`inInterrupt
      ensures Valid() && Abs() == Issue(old(Abs()), addr)
    {
      inInterrupt := true;
      cache := Regs(g[..], ip, sp, bp, cf);
      ip := addr;
    }

    method PollDevices(devs: seq<Device>, answers: seq<bool>)
      requires Valid() && |devs| == |answers|
      modifies this`ip, this`cache, this`inInterrupt
      ensures Valid() && Abs() == PollAll(old(Abs()), devs, answers)
    {
      for i := 0 to |devs|
        invariant Valid() && PollAll(Abs(), devs[i..], answers[i..]) == PollAll(old(Abs()), devs, answers)
      {
        assert devs[i..][1..] == devs[i + 1..] && answers[i..][1..] == answers[i + 1..];
        if devs[i].handler == 0 || !devs[i].polls {
          continue;
        }
        if answers[i] {
          IssueInterrupt(devs[i].handler);
        }
      }
    }

    /** Puts the cached registers back. */
    method ReturnFromInterrupt()
      requires Valid()
      modifies this, g
      ensures Valid() && Abs() == Cpu(old(State()).(regs := old(cache)), old(cache), old(interrupts), false)
    {
      inInterrupt := false;
      forall n | 0 <= n < 8 {
        g[n] := cache.g[n];
      }
      ip, sp, bp, cf := cache.ip, cache.sp, cache.bp, cache.cf;
      assert g[..] == cache.g;
      assert Regs(g[..], ip, sp, bp, cf) == cache;
    }

    ghost predicate Took(e: Exit, turn: Turn)
      requires Valid()
      reads this, mem, g
    {
      match turn
      case Went(c) => e == Fine && Abs() == c
      case Faulted(code) => e == Trap(code)
      case Lost => e == Unknown
    }

    /** Runs the instruction that was fetched. */
    method Dispatch(i: Instr) returns (e: Exit)
      requires Valid() && Fetched(State()) == Some(i)
      modifies this, mem, g
      ensures Valid() && Took(e, RunInstr(old(Abs())))
    {
      hide Exec, Fetched;
      match i {
        case Rti =>
          ReturnFromInterrupt();
          e := Fine;
        case Sti =>
          interrupts := true;
          e := Fine;
          Advance(e);
        case Dsi =>
          interrupts := false;
          e := Fine;
          Advance(e);
        case _ => e := Execute(i);
      }
    }

    /** One turn of the main loop: poll, fetch, decode, execute. */
    method Turn(devs: seq<Device>, answers: seq<bool>) returns (e: Exit)
      requires Valid() && |devs| == |answers|
      modifies this, mem, g
      ensures Valid() && Took(e, Step(old(Abs()), devs, answers))
    {
      hide Exec, Decode, PollAll;
      if interrupts && !inInterrupt {
        PollDevices(devs, answers);
      }
      if ip + 3 > 0xffff {
        return Unknown;
      }
      var i := Decode(mem[ip], mem[ip + 1], mem[ip + 2], mem[ip + 3]);
      if i.None? {
        return Unknown;
      }
      hide RunInstr;
      e := Dispatch(i.value);
    }

    /** As many turns of the main loop as there are inputs. */
    method Mainloop(devs: seq<Device>, inputs: seq<seq<bool>>) returns (e: Exit)
      requires Valid() && Inputs(devs, inputs)
      modifies this, mem, g
      ensures Valid() && Took(e, RunCpu(old(Abs()), devs, inputs))
    {
      hide Step;
      e := Fine;
      for n := 0 to |inputs|
        invariant Valid() && e == Fine
        invariant Inputs(devs, inputs[n..]) && RunCpu(Abs(), devs, inputs[n..]) == RunCpu(old(Abs()), devs, inputs)
      {
        assert inputs[n..][1..] == inputs[n + 1..];
        e := Turn(devs, inputs[n]);
        if !e.Fine? {
          return;
        }
      }
    }
  }
}
