/**
 Programs with symbolic operands, their loaded form, and runs of the machine over it.
 */
module Images {
  import opened Words
  import opened Machine

  /** One line of assembly: a label or an instruction. */
  datatype Line = Label(name: string) | Ins(i: Instr)

  /** Symbol addresses, and the last regular label, which local labels belong to. */
  datatype Names = Names(addr: map<string, u16>, scope: string) {
    function Full(name: string): string {
      Qualify(scope, name)
    }
  }

  /** A name starting with '@' is local to the last regular label. */
  function Qualify(scope: string, name: string): string {
    if name != "" && name[0] == '@' then scope + name else name
  }

  predicate HasSrc(i: Instr) {
    i.Two? || i.Load? || i.Store? || i.Shr? || i.Shl? || i.Jmp? || i.Jeq? || i.Jnz? || i.Call?
  }

  predicate Symbolic(i: Instr) {
    HasSrc(i) && i.src.SSym?
  }

  /** The instruction with its symbol, if any, replaced by the symbol's address. */
  function Resolve(names: Names, i: Instr): Instr {
    if Symbolic(i) && names.Full(i.src.name) in names.addr then
      i.(src := SImm(names.addr[names.Full(i.src.name)]))
    else i
  }

  /** A loaded program: instruction k is at address 4 * k, and `lim` is the lowest
      address the program may write. */
  datatype Image = Image(ins: seq<Instr>, lim: int) {
    predicate Fits() {
      4 * |ins| < 0x1_0000 && 4 * |ins| <= lim
    }
  }

  function Fetch(img: Image, s: State): Outcome {
    if s.regs.ip % 4 == 0 && s.regs.ip / 4 < |img.ins| then
      Exec(img.ins[s.regs.ip / 4], s, img.lim)
    else Wild
  }

  function Run(img: Image, s: State, n: nat): Outcome
    decreases n
  {
    if n == 0 then Next(s)
    else
      match Fetch(img, s)
      case Next(t) => Run(img, t, n - 1)
      case o => o
  }

  ghost predicate Reaches(img: Image, s: State, t: State) {
    exists n: nat :: Run(img, s, n) == Next(t)
  }

  lemma {:induction false} RunAppend(img: Image, s: State, t: State, m: nat, n: nat)
    requires Run(img, s, m) == Next(t)
    ensures Run(img, s, m + n) == Run(img, t, n)
    decreases m
  {
    if m > 0 {
      RunAppend(img, Fetch(img, s).s, t, m - 1, n);
    }
  }

  lemma ReachesSelf(img: Image, s: State)
    ensures Reaches(img, s, s)
  {
    assert Run(img, s, 0) == Next(s);
  }

  lemma ReachesTrans(img: Image, s: State, t: State, u: State)
    requires Reaches(img, s, t) && Reaches(img, t, u)
    ensures Reaches(img, s, u)
  {
    var m: nat :| Run(img, s, m) == Next(t);
    var n: nat :| Run(img, t, n) == Next(u);
    RunAppend(img, s, t, m, n);
    assert Run(img, s, m + n) == Next(u);
  }

  /** How many instructions a list of lines holds. */
  function Count(code: seq<Line>): nat {
    if code == [] then 0
    else (if code[0].Ins? then 1 else 0) + Count(code[1..])
  }

  /** The lines sit in the image from instruction k on: each instruction resolved in
      place, each label naming the address of the instruction after it. */
  predicate Loaded(code: seq<Line>, k: nat, img: Image, names: Names) {
    code == [] ||
    match code[0]
    case Label(l) =>
      names.Full(l) in names.addr && names.addr[names.Full(l)] == 4 * k && Loaded(code[1..], k, img, names)
    case Ins(i) =>
      k < |img.ins| && img.ins[k] == Resolve(names, i) && Loaded(code[1..], k + 1, img, names)
  }

  lemma {:induction false} CountAppend(a: seq<Line>, b: seq<Line>)
    ensures Count(a + b) == Count(a) + Count(b)
  {
    if a == [] {
      assert a + b == b;
    } else {
      assert (a + b)[1..] == a[1..] + b;
      CountAppend(a[1..], b);
    }
  }

  lemma {:induction false} LoadedAppend(a: seq<Line>, b: seq<Line>, k: nat, img: Image, names: Names)
    ensures Loaded(a + b, k, img, names) <==>
            Loaded(a, k, img, names) && Loaded(b, k + Count(a), img, names)
  {
    if a == [] {
      assert a + b == b;
    } else {
      assert (a + b)[0] == a[0] && (a + b)[1..] == a[1..] + b;
      LoadedAppend(a[1..], b, if a[0].Ins? then k + 1 else k, img, names);
    }
  }

  function Lines(code: seq<Instr>): (r: seq<Line>)
    ensures |r| == |code| && forall i :: 0 <= i < |r| ==> r[i] == Ins(code[i])
  {
    seq(|code|, i requires 0 <= i < |code| => Ins(code[i]))
  }

  /** Executes instructions one after the other; a jump is `Wild` here. */
  function RunSeq(names: Names, code: seq<Instr>, s: State, lim: int): Outcome {
    if code == [] then Next(s)
    else
      match Exec(Resolve(names, code[0]), s, lim)
      case Next(t) =>
        if t.regs.ip == s.regs.ip + 4 then RunSeq(names, code[1..], t, lim) else Wild
      case o => o
  }

  lemma {:induction false} RunSeqAppend(names: Names, a: seq<Instr>, b: seq<Instr>, s: State, t: State, lim: int)
    requires RunSeq(names, a, s, lim) == Next(t)
    ensures RunSeq(names, a + b, s, lim) == RunSeq(names, b, t, lim)
  {
    if a == [] {
      assert a + b == b;
    } else {
      assert (a + b)[0] == a[0] && (a + b)[1..] == a[1..] + b;
      RunSeqAppend(names, a[1..], b, Exec(Resolve(names, a[0]), s, lim).s, t, lim);
    }
  }

  lemma RunSeqOne(names: Names, i: Instr, s: State, lim: int)
    ensures var o := Exec(Resolve(names, i), s, lim);
            o.Next? && o.s.regs.ip == s.regs.ip + 4 ==> RunSeq(names, [i], s, lim) == o
  {
    assert [i][1..] == [];
  }

  lemma {:induction false} CountLines(code: seq<Instr>)
    ensures Count(Lines(code)) == |code|
  {
    if code != [] {
      assert Lines(code)[1..] == Lines(code[1..]);
      CountLines(code[1..]);
    }
  }

  /** Straight-line code loaded at the machine's position runs to its end, one step an
      instruction. */
  lemma {:induction false} StraightRun(names: Names, code: seq<Instr>, k: nat, img: Image, s: State)
    requires Loaded(Lines(code), k, img, names)
    requires s.regs.ip == 4 * k
    requires RunSeq(names, code, s, img.lim).Next?
    ensures Run(img, s, |code|) == RunSeq(names, code, s, img.lim)
  {
    hide Exec, Resolve;
    if code != [] {
      var t := Exec(Resolve(names, code[0]), s, img.lim).s;
      assert Lines(code)[0] == Ins(code[0]) && Lines(code)[1..] == Lines(code[1..]);
      assert Fetch(img, s) == Next(t);
      StraightRun(names, code[1..], k + 1, img, t);
    }
  }

  lemma {:induction false} RunSeqIp(names: Names, code: seq<Instr>, s: State, lim: int)
    requires RunSeq(names, code, s, lim).Next?
    ensures RunSeq(names, code, s, lim).s.regs.ip == s.regs.ip + 4 * |code|
  {
    if code != [] {
      RunSeqIp(names, code[1..], Exec(Resolve(names, code[0]), s, lim).s, lim);
    }
  }
}
