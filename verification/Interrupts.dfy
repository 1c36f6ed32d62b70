/**
 The interrupt state machine of the CPU: one register cache, one in-interrupt flag, and
 what it takes for handlers to be invisible to the program they interrupt.
 */
module Interrupts {
  import opened Words
  import opened Machine
  import opened Encoding
  import opened ByteSim

  /** The registers and memory, the register cache, and the two interrupt flags. */
  datatype Cpu = Cpu(st: State, cache: Regs, on: bool, busy: bool)

  /** A device polls the outside world; handler 0 means no interrupt function. */
  datatype Device = Device(handler: u16, polls: bool)

  datatype Turn = Went(c: Cpu) | Faulted(code: int) | Lost

  function Issue(c: Cpu, addr: u16): Cpu {
    Cpu(c.st.(regs := c.st.regs.(ip := addr)), c.st.regs, c.on, true)
  }

  predicate Ready(d: Device, answer: bool) {
    d.handler != 0 && d.polls && answer
  }

  /** Polls every device in order; each ready one issues its interrupt. */
  function PollAll(c: Cpu, devs: seq<Device>, answers: seq<bool>): Cpu
    requires |devs| == |answers|
    decreases |devs|
  {
    if devs == [] then c
    else
      PollAll(if Ready(devs[0], answers[0]) then Issue(c, devs[0].handler) else c, devs[1..], answers[1..])
  }

  function Polled(c: Cpu, devs: seq<Device>, answers: seq<bool>): Cpu
    requires |devs| == |answers|
  {
    if c.on && !c.busy then PollAll(c, devs, answers) else c
  }

  /** The instruction at ip. */
  function Fetched(s: State): Option<Instr> {
    var ip := s.regs.ip;
    if ip + 3 > 0xffff then None else Decode(s.mem[ip], s.mem[ip + 1], s.mem[ip + 2], s.mem[ip + 3])
  }

  function RunInstr(c: Cpu): Turn {
    match Fetched(c.st)
    case Some(Rti) => Went(Cpu(c.st.(regs := c.cache), c.cache, c.on, false))
    case Some(Sti) => Went(c.(st := Bump(c.st), on := true))
    case Some(Dsi) => Went(c.(st := Bump(c.st), on := false))
    case Some(i) =>
      (match Exec(i, c.st, 0)
       case Next(t) => Went(c.(st := t))
       case Fault(code) => Faulted(code)
       case Wild => Lost)
    case None => Lost
  }

  /** One turn of the main loop. */
  function Step(c: Cpu, devs: seq<Device>, answers: seq<bool>): Turn
    requires |devs| == |answers|
  {
    RunInstr(Polled(c, devs, answers))
  }

  /** What the devices answer, turn by turn. */
  ghost predicate Inputs(devs: seq<Device>, inputs: seq<seq<bool>>) {
    forall i :: 0 <= i < |inputs| ==> |inputs[i]| == |devs|
  }

  ghost function RunCpu(c: Cpu, devs: seq<Device>, inputs: seq<seq<bool>>): Turn
    requires Inputs(devs, inputs)
    decreases |inputs|
  {
    if inputs == [] then Went(c)
    else
      match Step(c, devs, inputs[0])
      case Went(d) => RunCpu(d, devs, inputs[1..])
      case o => o
  }

  // Polling ----------------------------------------------------------------------------

  /** The handlers of the ready devices, in polling order. */
  function ReadyHandlers(devs: seq<Device>, answers: seq<bool>): seq<u16>
    requires |devs| == |answers|
  {
    if devs == [] then []
    else
      (if Ready(devs[0], answers[0]) then [devs[0].handler] else []) + ReadyHandlers(devs[1..], answers[1..])
  }

  /** The state after a poll: the last ready handler runs, and what is cached has the
      handler before it, if there is one, in place of the interrupted address. */
  function AfterPoll(c: Cpu, hs: seq<u16>): Cpu {
    if hs == [] then c
    else
      Cpu(c.st.(regs := c.st.regs.(ip := hs[|hs| - 1])),
          if |hs| == 1 then c.st.regs else c.st.regs.(ip := hs[|hs| - 2]), c.on, true)
  }

  lemma {:induction false} PollAllIs(c: Cpu, devs: seq<Device>, answers: seq<bool>)
    requires |devs| == |answers|
    ensures PollAll(c, devs, answers) == AfterPoll(c, ReadyHandlers(devs, answers))
    decreases |devs|
  {
    if devs != [] {
      var rest := ReadyHandlers(devs[1..], answers[1..]);
      if Ready(devs[0], answers[0]) {
        PollAllIs(Issue(c, devs[0].handler), devs[1..], answers[1..]);
        assert ([devs[0].handler] + rest)[1..] == rest;
      } else {
        PollAllIs(c, devs[1..], answers[1..]);
        assert [] + rest == rest;
      }
    }
  }

  /** The poll keeps the way back: at most one device was ready, or the handler that the
      cache got as return address happens to be where the program stood. */
  predicate WayBack(c: Cpu, hs: seq<u16>) {
    |hs| <= 1 || hs[|hs| - 2] == c.st.regs.ip
  }

  /** A poll that interrupts saves the interrupted registers exactly under that condition:
      a second ready device overwrites the cache with the entry of the first one's handler. */
  lemma CacheRightIff(c: Cpu, devs: seq<Device>, answers: seq<bool>)
    requires |devs| == |answers| && c.on && !c.busy && ReadyHandlers(devs, answers) != []
    ensures var d := Polled(c, devs, answers);
            d.busy && (d.cache == c.st.regs <==> WayBack(c, ReadyHandlers(devs, answers)))
  {
    PollAllIs(c, devs, answers);
    var hs := ReadyHandlers(devs, answers);
    if |hs| > 1 {
      assert Polled(c, devs, answers).cache.ip == hs[|hs| - 2];
      assert c.st.regs.(ip := c.st.regs.ip) == c.st.regs;
    }
  }

  // Inside a handler -----------------------------------------------------------------

  /** Whatever runs inside a handler, the cache stays as it is until rti, and rti puts
      exactly it back. */
  lemma CacheHeld(c: Cpu, devs: seq<Device>, answers: seq<bool>)
    requires |devs| == |answers| && c.busy && Step(c, devs, answers).Went?
    ensures var d := Step(c, devs, answers).c;
            && d.cache == c.cache
            && (d.busy <==> Fetched(c.st) != Some(Rti))
            && (!d.busy ==> d.st == State(c.cache, c.st.mem))
  {
    hide Exec, Decode;
  }

  /** The run stays inside the handler up to its last turn. */
  ghost predicate Inside(c: Cpu, devs: seq<Device>, inputs: seq<seq<bool>>)
    requires Inputs(devs, inputs)
    decreases |inputs|
  {
    inputs == [] ||
    (c.busy && Step(c, devs, inputs[0]).Went? && Inside(Step(c, devs, inputs[0]).c, devs, inputs[1..]))
  }

  lemma {:induction false} CacheHeldOverRun(c: Cpu, devs: seq<Device>, inputs: seq<seq<bool>>)
    requires Inputs(devs, inputs) && Inside(c, devs, inputs)
    ensures RunCpu(c, devs, inputs).Went? && RunCpu(c, devs, inputs).c.cache == c.cache
    ensures inputs != [] && !RunCpu(c, devs, inputs).c.busy ==> RunCpu(c, devs, inputs).c.st.regs == c.cache
    decreases |inputs|
  {
    hide Step;
    if inputs != [] {
      var d := Step(c, devs, inputs[0]).c;
      CacheHeld(c, devs, inputs[0]);
      assert Inputs(devs, inputs[1..]);
      CacheHeldOverRun(d, devs, inputs[1..]);
    }
  }

  // What a step reads and writes -----------------------------------------------------

  function LoadFrom(s: State, src: Src): u16 {
    match src
    case SReg(p) => RLoad(s.regs, p)
    case SImm(v) => Wrap(v)
    case SSym(_) => 0
  }

  /** The bytes an access of one or two bytes at `at` touches. */
  predicate Covers(at: int, half: bool, a: int) {
    a == at || (!half && a == at + 1)
  }

  /** The instruction reads the byte at `a`. */
  predicate ReadsAt(i: Instr, s: State, a: int) {
    match i
    case Ret => Covers(s.regs.sp, false, a)
    case Pop(r) => Covers(s.regs.sp, r.IsHalf(), a)
    case Load(r, src) => Covers(LoadFrom(s, src), r.IsHalf(), a)
    case _ => false
  }

  /** The instruction writes the byte at `a`. */
  predicate WritesAt(i: Instr, s: State, a: int) {
    match i
    case Push(r) => if r.IsHalf() then a == s.regs.sp - 1 else Covers(Wrap(s.regs.sp - 2), false, a)
    case PushImm8(_) => a == s.regs.sp - 1
    case PushImm16(_) => Covers(Wrap(s.regs.sp - 2), false, a)
    case Store(r, src) => Covers(LoadFrom(s, src), r.IsHalf(), a)
    case Call(_) => Covers(Wrap(s.regs.sp - 2), false, a)
    case CallR(_) => Covers(Wrap(s.regs.sp - 2), false, a)
    case _ => false
  }

  /** The same registers, and the same bytes but for the dirty ones. */
  ghost predicate Alike(s: State, t: State, dirty: iset<u16>) {
    s.regs == t.regs && forall a: u16 :: a !in dirty ==> s.mem[a] == t.mem[a]
  }

  /** The dirty bytes a step of the program has not just written. */
  ghost function Cleaned(dirty: iset<u16>, i: Instr, s: State): iset<u16> {
    iset a: u16 | a in dirty && !WritesAt(i, s, a)
  }

  /** Both outcomes are the same fault, or steps to states alike. */
  ghost predicate BothStep(o: Outcome, r: Outcome, dirty: iset<u16>) {
    if o.Next? then r.Next? && Alike(o.s, r.s, dirty) else r == o
  }

  lemma PushAlike(s: State, t: State, v: u16, dirty: iset<u16>, left: iset<u16>)
    requires Alike(s, t, dirty)
    requires forall a: u16 :: a in dirty && !Covers(Wrap(s.regs.sp - 2), false, a) ==> a in left
    ensures BothStep(Push16(s, v, 0), Push16(t, v, 0), left)
  {
  }

  lemma Push8Alike(s: State, t: State, v: u8, dirty: iset<u16>, left: iset<u16>)
    requires Alike(s, t, dirty) && forall a: u16 :: a in dirty && a != s.regs.sp - 1 ==> a in left
    ensures BothStep(Push8(s, v, 0), Push8(t, v, 0), left)
  {
  }

  lemma StoreAlike(r: Reg, at: u16, s: State, t: State, dirty: iset<u16>, left: iset<u16>)
    requires Alike(s, t, dirty) && forall a: u16 :: a in dirty && !Covers(at, r.IsHalf(), a) ==> a in left
    ensures BothStep(ExecStore(r, at, s, 0), ExecStore(r, at, t, 0), left)
  {
  }

  lemma LoadAlike(r: Reg, at: u16, s: State, t: State, dirty: iset<u16>)
    requires Alike(s, t, dirty) && forall a: u16 :: Covers(at, r.IsHalf(), a) ==> a !in dirty
    ensures BothStep(ExecLoad(r, at, s), ExecLoad(r, at, t), dirty)
  {
  }

  lemma BumpAlike(o: Outcome, r: Outcome, dirty: iset<u16>)
    requires BothStep(o, r, dirty)
    ensures BothStep(Step4(o), Step4(r), dirty)
  {
  }

  /** Instructions that do not touch the memory. */
  lemma RegsAlike(i: Instr, s: State, t: State, dirty: iset<u16>)
    requires !i.Push? && !i.PushImm8? && !i.PushImm16? && !i.Store? && !i.Call? && !i.CallR?
    requires !i.Ret? && !i.Pop? && !i.Load? && Alike(s, t, dirty)
    ensures BothStep(Exec(i, s, 0), Exec(i, t, 0), dirty)
  {
    hide Arith, Compare, Pow2, Wrap, And16, Or16;
  }

  lemma PopAlike(i: Instr, s: State, t: State, dirty: iset<u16>)
    requires (i.Ret? || i.Pop?) && Alike(s, t, dirty) && forall a: u16 :: ReadsAt(i, s, a) ==> a !in dirty
    ensures BothStep(Exec(i, s, 0), Exec(i, t, 0), dirty)
  {
    var sp := s.regs.sp;
    assert ReadsAt(i, s, sp);
    if sp < 0xffff && (i.Ret? || !i.reg.IsHalf()) {
      assert ReadsAt(i, s, sp + 1);
      assert Read16(s.mem, sp) == Read16(t.mem, sp);
    }
  }

  /** An instruction that reads no dirty byte does the same on both sides, and what it
      writes is dirty no more. */
  lemma ExecAlike(i: Instr, s: State, t: State, dirty: iset<u16>)
    requires Alike(s, t, dirty) && forall a: u16 :: ReadsAt(i, s, a) ==> a !in dirty
    ensures BothStep(Exec(i, s, 0), Exec(i, t, 0), Cleaned(dirty, i, s))
  {
    hide Push16, Push8, ExecStore, ExecLoad, Alike, BothStep, Step4, Goto, Wrap;
    var left := Cleaned(dirty, i, s);
    SameRegs(s, t, dirty);
    match i
    case Push(r) =>
      if r.IsHalf() {
        Push8Alike(s, t, Lo(RLoad(s.regs, r)), dirty, left);
        BumpAlike(Push8(s, Lo(RLoad(s.regs, r)), 0), Push8(t, Lo(RLoad(s.regs, r)), 0), left);
      } else {
        PushAlike(s, t, RLoad(s.regs, r), dirty, left);
        BumpAlike(Push16(s, RLoad(s.regs, r), 0), Push16(t, RLoad(s.regs, r), 0), left);
      }
    case PushImm8(v) =>
      Push8Alike(s, t, v, dirty, left);
      BumpAlike(Push8(s, v, 0), Push8(t, v, 0), left);
    case PushImm16(v) =>
      PushAlike(s, t, v, dirty, left);
      BumpAlike(Push16(s, v, 0), Push16(t, v, 0), left);
    case Store(r, src) =>
      StoreAlike(r, LoadFrom(s, src), s, t, dirty, left);
      BumpAlike(ExecStore(r, LoadFrom(s, src), s, 0), ExecStore(r, LoadFrom(s, src), t, 0), left);
      SameOutcome(Fault(FAULT_REG), left);
      SameOutcome(Wild, left);
    case Load(r, src) =>
      LoadAlike(r, LoadFrom(s, src), s, t, dirty);
      BumpAlike(ExecLoad(r, LoadFrom(s, src), s), ExecLoad(r, LoadFrom(s, src), t), dirty);
      SameOutcome(Fault(FAULT_REG), left);
      SameOutcome(Wild, left);
      assert left == dirty;
    case Call(src) => CallAlike(i, s, t, dirty);
    case CallR(r) => CallAlike(i, s, t, dirty);
    case _ =>
      assert left == dirty;
      if i.Ret? || i.Pop? {
        PopAlike(i, s, t, dirty);
      } else {
        RegsAlike(i, s, t, dirty);
      }
  }

  lemma SameRegs(s: State, t: State, dirty: iset<u16>)
    requires Alike(s, t, dirty)
    ensures s.regs == t.regs
  {
  }

  lemma SameOutcome(o: Outcome, dirty: iset<u16>)
    requires !o.Next?
    ensures BothStep(o, o, dirty)
  {
  }

  lemma CallAlike(i: Instr, s: State, t: State, dirty: iset<u16>)
    requires (i.Call? || i.CallR?) && Alike(s, t, dirty)
    ensures BothStep(Exec(i, s, 0), Exec(i, t, 0), Cleaned(dirty, i, s))
  {
    hide Push16, Wrap;
    PushAlike(s, t, Wrap(s.regs.ip + 4), dirty, Cleaned(dirty, i, s));
  }

  // Handlers are invisible ------------------------------------------------------------

  /** Where the interrupted program stands: its own state, or what rti will restore. */
  function MainState(c: Cpu, found: Memory): State {
    if c.busy then State(c.cache, found) else c.st
  }

  function FoundAfter(c: Cpu, found: Memory): Memory {
    if c.busy then found else c.st.mem
  }

  /** The bytes in which two memories differ. */
  ghost function Differing(m: Memory, n: Memory): iset<u16> {
    iset a: u16 | m[a] != n[a]
  }

  /** The program's step neither fetches nor reads a dirty byte. */
  ghost predicate ReadsClean(s: State, dirty: iset<u16>) {
    && (forall a: u16 :: s.regs.ip <= a <= s.regs.ip + 3 ==> a !in dirty)
    && (Fetched(s).Some? ==> forall a: u16 :: ReadsAt(Fetched(s).value, s, a) ==> a !in dirty)
  }

  /** The bytes that are not what they would be without handlers: a handler leaves dirty
      what it changed, the program cleans what it writes. */
  ghost function DirtyAfter(d: Cpu, seen: Memory, dirty: iset<u16>): iset<u16> {
    if d.busy then if Fetched(d.st) == Some(Rti) then dirty + Differing(d.st.mem, seen) else dirty
    else if Fetched(d.st).Some? then Cleaned(dirty, Fetched(d.st).value, d.st) else dirty
  }

  /**
   The run is well-behaved: every interrupting poll keeps the way back, no rti runs outside
   a handler, and the program reads no byte a handler has changed (since `found`, the memory
   the handler found) before writing it itself.
   */
  ghost predicate Tidy(c: Cpu, found: Memory, dirty: iset<u16>, devs: seq<Device>, inputs: seq<seq<bool>>)
    requires Inputs(devs, inputs)
    decreases |inputs|
  {
    inputs == [] ||
    (var d := Polled(c, devs, inputs[0]);
     var seen := FoundAfter(c, found);
     && (c.on && !c.busy ==> WayBack(c, ReadyHandlers(devs, inputs[0])))
     && (!d.busy ==> Fetched(d.st) != Some(Rti) && ReadsClean(d.st, dirty))
     && (RunInstr(d).Went? ==> Tidy(RunInstr(d).c, seen, DirtyAfter(d, seen, dirty), devs, inputs[1..])))
  }

  /** A state of the program and the bytes dirty in it. */
  datatype Moment = Moment(st: State, dirty: iset<u16>)

  /** The states in which the interrupted program, not a handler, executes an instruction. */
  ghost function MainTrace(c: Cpu, found: Memory, dirty: iset<u16>, devs: seq<Device>, inputs: seq<seq<bool>>): seq<Moment>
    requires Inputs(devs, inputs)
    decreases |inputs|
  {
    if inputs == [] then []
    else
      var d := Polled(c, devs, inputs[0]);
      var seen := FoundAfter(c, found);
      (if d.busy then [] else [Moment(d.st, dirty)]) +
      (if RunInstr(d).Went? then MainTrace(RunInstr(d).c, seen, DirtyAfter(d, seen, dirty), devs, inputs[1..]) else [])
  }

  /** Where the program stands at the end of the run. */
  ghost function MainEnd(c: Cpu, found: Memory, dirty: iset<u16>, devs: seq<Device>, inputs: seq<seq<bool>>): Moment
    requires Inputs(devs, inputs)
    decreases |inputs|
  {
    if inputs == [] then Moment(MainState(c, found), dirty)
    else
      var d := Polled(c, devs, inputs[0]);
      var seen := FoundAfter(c, found);
      if RunInstr(d).Went? then MainEnd(RunInstr(d).c, seen, DirtyAfter(d, seen, dirty), devs, inputs[1..])
      else Moment(MainState(d, seen), dirty)
  }

  /** Polling does not move the interrupted program. */
  lemma PollKeepsMain(c: Cpu, found: Memory, devs: seq<Device>, answers: seq<bool>)
    requires |devs| == |answers|
    requires c.on && !c.busy ==> WayBack(c, ReadyHandlers(devs, answers))
    ensures MainState(Polled(c, devs, answers), FoundAfter(c, found)) == MainState(c, found)
    ensures Polled(c, devs, answers).st.mem == c.st.mem
  {
    if c.on && !c.busy {
      PollAllIs(c, devs, answers);
      if ReadyHandlers(devs, answers) != [] {
        CacheRightIff(c, devs, answers);
      }
    }
  }

  /** A turn inside a handler moves the interrupted program nowhere; what it changed in the
      memory is dirty when it is over. */
  lemma HandlerKeepsMain(d: Cpu, seen: Memory, dirty: iset<u16>, s: State)
    requires d.busy && RunInstr(d).Went? && Alike(MainState(d, seen), s, dirty)
    ensures Alike(MainState(RunInstr(d).c, seen), s, DirtyAfter(d, seen, dirty))
  {
    hide Exec, Decode;
    if Fetched(d.st) == Some(Rti) {
      forall a: u16 | a !in DirtyAfter(d, seen, dirty) ensures d.st.mem[a] == s.mem[a] {
        assert a !in Differing(d.st.mem, seen);
      }
    }
  }

  /** A turn outside a handler moves it by one plain step. */
  lemma MainSteps(d: Cpu, seen: Memory, dirty: iset<u16>, s: State)
    requires !d.busy && RunInstr(d).Went? && Fetched(d.st) != Some(Rti)
    requires Alike(d.st, s, dirty) && ReadsClean(d.st, dirty)
    ensures !RunInstr(d).c.busy && ByteStep(s).Next?
    ensures Alike(RunInstr(d).c.st, ByteStep(s).s, DirtyAfter(d, seen, dirty))
  {
    hide Decode, Exec, Cleaned;
    SameFetch(d.st, s, dirty);
    ExecAlike(Fetched(d.st).value, d.st, s, dirty);
    PlainTurn(d);
  }

  lemma SameFetch(s: State, t: State, dirty: iset<u16>)
    requires Alike(s, t, dirty) && ReadsClean(s, dirty) && Fetched(s).Some?
    ensures Fetched(t) == Fetched(s) && ByteStep(t) == Exec(Fetched(s).value, t, 0)
  {
    hide Decode, Exec;
    var ip := s.regs.ip;
    assert s.mem[ip] == t.mem[ip] && s.mem[ip + 1] == t.mem[ip + 1];
    assert s.mem[ip + 2] == t.mem[ip + 2] && s.mem[ip + 3] == t.mem[ip + 3];
  }

  lemma PlainTurn(d: Cpu)
    requires !d.busy && RunInstr(d).Went? && Fetched(d.st) != Some(Rti)
    ensures Fetched(d.st).Some? && !RunInstr(d).c.busy
    ensures Exec(Fetched(d.st).value, d.st, 0) == Next(RunInstr(d).c.st)
  {
    hide Decode;
  }

  /** The program alone, k steps on, is where the moments say. */
  ghost predicate KeepsPace(s: State, main: seq<Moment>) {
    forall k :: 0 <= k < |main| ==> RunBytes(s, k).Next? && Alike(main[k].st, RunBytes(s, k).s, main[k].dirty)
  }

  lemma OneMore(s: State, t: State, m: Moment, rest: seq<Moment>)
    requires ByteStep(s) == Next(t) && Alike(m.st, s, m.dirty) && KeepsPace(t, rest)
    ensures KeepsPace(s, [m] + rest) && RunBytes(s, |rest| + 1) == RunBytes(t, |rest|)
  {
    hide ByteStep, Alike;
    forall k | 0 <= k < |rest| + 1
      ensures RunBytes(s, k).Next? && Alike(([m] + rest)[k].st, RunBytes(s, k).s, ([m] + rest)[k].dirty)
    {
      if k > 0 {
        assert RunBytes(s, k) == RunBytes(t, k - 1) && ([m] + rest)[k] == rest[k - 1];
      }
    }
  }

  /**
   Handlers are transparent: take out of a well-behaved run the turns spent in handlers, and
   what is left is the run of the program alone, state by state: the same registers and the
   same bytes, but for those a handler changed and the program has not written since. A
   handler may push, call and keep memory of its own.
   */
  lemma {:induction false} HandlersInvisible(c: Cpu, found: Memory, dirty: iset<u16>, devs: seq<Device>,
                                             inputs: seq<seq<bool>>, s: State)
    requires Inputs(devs, inputs) && Tidy(c, found, dirty, devs, inputs) && RunCpu(c, devs, inputs).Went?
    requires Alike(MainState(c, found), s, dirty)
    ensures var main, end := MainTrace(c, found, dirty, devs, inputs), MainEnd(c, found, dirty, devs, inputs);
            && KeepsPace(s, main)
            && RunBytes(s, |main|).Next? && Alike(end.st, RunBytes(s, |main|).s, end.dirty)
            && end.st.regs == (if RunCpu(c, devs, inputs).c.busy then RunCpu(c, devs, inputs).c.cache
                               else RunCpu(c, devs, inputs).c.st.regs)
    decreases |inputs|
  {
    hide RunInstr, Polled, ByteStep, Fetched, WayBack, Alike, ReadsClean, DirtyAfter;
    if inputs == [] {
    } else {
      var d := Polled(c, devs, inputs[0]);
      var seen := FoundAfter(c, found);
      PollKeepsMain(c, found, devs, inputs[0]);
      assert Inputs(devs, inputs[1..]);
      var e := RunInstr(d).c;
      var left := DirtyAfter(d, seen, dirty);
      if d.busy {
        HandlerKeepsMain(d, seen, dirty, s);
        HandlersInvisible(e, seen, left, devs, inputs[1..], s);
        assert MainTrace(c, found, dirty, devs, inputs) == MainTrace(e, seen, left, devs, inputs[1..]);
      } else {
        MainSteps(d, seen, dirty, s);
        var t := ByteStep(s).s;
        HandlersInvisible(e, seen, left, devs, inputs[1..], t);
        var rest := MainTrace(e, seen, left, devs, inputs[1..]);
        OneMore(s, t, Moment(d.st, dirty), rest);
        assert MainTrace(c, found, dirty, devs, inputs) == [Moment(d.st, dirty)] + rest;
      }
    }
  }
}
