/**
 The machine that fetches and decodes bytes, against the machine that runs a list of
 instructions: as long as no store hits the code they go through the same states.
 */
module ByteSim {
  import opened Words
  import opened Machine
  import opened Images
  import opened Encoding
  import opened Traces

  /** One turn of the CPU's loop: four bytes at ip, decoded and executed. */
  function ByteStep(s: State): Outcome {
    var ip := s.regs.ip;
    if ip + 3 > 0xffff then Wild
    else
      match Decode(s.mem[ip], s.mem[ip + 1], s.mem[ip + 2], s.mem[ip + 3])
      case Some(i) => Exec(i, s, 0)
      case None => Wild
  }

  function RunBytes(s: State, n: nat): Outcome
    decreases n
  {
    if n == 0 then Next(s)
    else
      match ByteStep(s)
      case Next(t) => RunBytes(t, n - 1)
      case o => o
  }

  /** The bytes of the image lie in memory from address 0 on. */
  ghost predicate CodeIn(img: Image, m: Memory) {
    && img.Fits()
    && forall k :: 0 <= k < |img.ins| ==>
         Decode(m[4 * k], m[4 * k + 1], m[4 * k + 2], m[4 * k + 3]) == Some(img.ins[k])
  }

  ghost predicate SameBelow(m: Memory, n: Memory, lim: int) {
    forall a :: 0 <= a < 0x1_0000 && a < lim ==> m[a] == n[a]
  }

  /** A step allowed under a protected limit is the plain step, and spares the protected bytes. */
  ghost predicate Spares(o: Outcome, plain: Outcome, s: State, lim: int) {
    o.Next? ==> plain == o && SameBelow(s.mem, o.s.mem, lim)
  }

  lemma PushSpares(s: State, v: u16, lim: int)
    requires 0 <= lim
    ensures Spares(Push16(s, v, lim), Push16(s, v, 0), s, lim)
  {
  }

  lemma Push8Spares(s: State, v: u8, lim: int)
    requires 0 <= lim
    ensures Spares(Push8(s, v, lim), Push8(s, v, 0), s, lim)
  {
  }

  lemma StoreSpares(reg: Reg, a: u16, s: State, lim: int)
    requires 0 <= lim
    ensures Spares(ExecStore(reg, a, s, lim), ExecStore(reg, a, s, 0), s, lim)
  {
  }

  /** Instructions that write no memory. */
  lemma QuietSpares(i: Instr, s: State, lim: int)
    requires 0 <= lim
    requires !i.Push? && !i.PushImm8? && !i.PushImm16? && !i.Store? && !i.Call? && !i.CallR?
    ensures Exec(i, s, lim) == Exec(i, s, 0) && (Exec(i, s, lim).Next? ==> Exec(i, s, lim).s.mem == s.mem)
  {
    hide Arith, Compare, Pow2, Read16, Word, Wrap, And16, Or16;
  }

  lemma ExecSpares(i: Instr, s: State, lim: int)
    requires 0 <= lim
    ensures Spares(Exec(i, s, lim), Exec(i, s, 0), s, lim)
  {
    hide Push16, Push8, ExecStore, Arith, Compare, Pow2, Read16, Word, ExecLoad, ExecTwo;
    match i
    case Push(r) =>
      PushSpares(s, RLoad(s.regs, r), lim);
      Push8Spares(s, Lo(RLoad(s.regs, r)), lim);
    case PushImm8(v) => Push8Spares(s, v, lim);
    case PushImm16(v) => PushSpares(s, v, lim);
    case Store(r, SReg(p)) => StoreSpares(r, RLoad(s.regs, p), s, lim);
    case Store(r, SImm(a)) => StoreSpares(r, Wrap(a), s, lim);
    case Store(r, SSym(_)) =>
    case Call(_) => PushSpares(s, Wrap(s.regs.ip + 4), lim);
    case CallR(_) => PushSpares(s, Wrap(s.regs.ip + 4), lim);
    case _ => QuietSpares(i, s, lim);
  }

  /** One step over the list is one step over the bytes, and the code stays in place. */
  lemma StepAgrees(img: Image, s: State)
    requires CodeIn(img, s.mem) && Fetch(img, s).Next?
    ensures ByteStep(s) == Fetch(img, s) && CodeIn(img, Fetch(img, s).s.mem)
  {
    hide Exec, Decode;
    var k := s.regs.ip / 4;
    ExecSpares(img.ins[k], s, img.lim);
    var t := Fetch(img, s).s;
    assert ByteStep(s) == Exec(img.ins[k], s, 0);
    forall j | 0 <= j < |img.ins|
      ensures Decode(t.mem[4 * j], t.mem[4 * j + 1], t.mem[4 * j + 2], t.mem[4 * j + 3]) == Some(img.ins[j])
    {
      assert t.mem[4 * j] == s.mem[4 * j] && t.mem[4 * j + 1] == s.mem[4 * j + 1];
      assert t.mem[4 * j + 2] == s.mem[4 * j + 2] && t.mem[4 * j + 3] == s.mem[4 * j + 3];
    }
  }

  /** Step for step: n steps over the list are n steps over the bytes. */
  lemma {:induction false} RunAgrees(img: Image, s: State, n: nat)
    requires CodeIn(img, s.mem) && Run(img, s, n).Next?
    ensures RunBytes(s, n) == Run(img, s, n) && CodeIn(img, Run(img, s, n).s.mem)
    decreases n
  {
    hide CodeIn, Fetch, ByteStep;
    if n > 0 {
      StepAgrees(img, s);
      RunAgrees(img, Fetch(img, s).s, n - 1);
    }
  }

  /** What n steps over the bytes show. */
  function TraceBytes(marks: seq<Mark>, s: State, n: nat): seq<Event>
    decreases n
  {
    if n == 0 then []
    else
      match ByteStep(s)
      case Next(t) => Show(MarkAt(marks, s.regs.ip), t) + TraceBytes(marks, t, n - 1)
      case _ => []
  }

  lemma {:induction false} TraceAgrees(img: Image, marks: seq<Mark>, s: State, n: nat)
    requires CodeIn(img, s.mem) && Run(img, s, n).Next?
    ensures TraceBytes(marks, s, n) == Trace(img, marks, s, n)
    decreases n
  {
    hide CodeIn, Fetch, ByteStep, Show, MarkAt;
    if n > 0 {
      StepAgrees(img, s);
      TraceAgrees(img, marks, Fetch(img, s).s, n - 1);
    }
  }
}
