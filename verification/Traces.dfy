/**
 What can be seen of a run: the compiler marks the last instruction of a block, and each
 time a marked instruction is executed the register or flag it concerns is recorded.
 */
module Traces {
  import opened Words
  import opened Machine
  import opened Images

  /** What to look at behind an instruction: a stored register, a returned value, the
      arguments of a call, the flag of a conditional jump. */
  datatype Mark = NoMark | StoreMark(r: GprIndex) | ReturnMark | CallMark(f: string, n: nat) | FlagMark

  datatype Event = EvStore(v: u16) | EvReturn(v: u16) | EvCall(f: string, args: seq<u16>) | EvFlag(cf: bool)

  function Show(m: Mark, t: State): seq<Event> {
    match m
    case NoMark => []
    case StoreMark(r) => [EvStore(t.regs.g[r])]
    case ReturnMark => [EvReturn(t.regs.g[0])]
    case CallMark(f, n) => if n <= 8 then [EvCall(f, t.regs.g[..n])] else []
    case FlagMark => [EvFlag(t.regs.cf)]
  }

  function MarkAt(marks: seq<Mark>, ip: int): Mark {
    if ip % 4 == 0 && 0 <= ip / 4 < |marks| then marks[ip / 4] else NoMark
  }

  /** The events of the first n steps. */
  function Trace(img: Image, marks: seq<Mark>, s: State, n: nat): seq<Event>
    decreases n
  {
    if n == 0 then []
    else
      match Fetch(img, s)
      case Next(t) => Show(MarkAt(marks, s.regs.ip), t) + Trace(img, marks, t, n - 1)
      case _ => []
  }

  /** n steps take the machine from s to t and show these events. */
  ghost predicate Takes(img: Image, marks: seq<Mark>, s: State, t: State, n: nat, evs: seq<Event>) {
    Run(img, s, n) == Next(t) && Trace(img, marks, s, n) == evs
  }

  /** The machine gets from s to t and shows these events on the way. */
  ghost predicate Shows(img: Image, marks: seq<Mark>, s: State, t: State, evs: seq<Event>) {
    exists n: nat :: Takes(img, marks, s, t, n, evs)
  }

  lemma {:induction false} TraceAppend(img: Image, marks: seq<Mark>, s: State, t: State, m: nat, n: nat)
    requires Run(img, s, m) == Next(t)
    ensures Trace(img, marks, s, m + n) == Trace(img, marks, s, m) + Trace(img, marks, t, n)
    decreases m
  {
    hide Fetch, Show, MarkAt;
    if m > 0 {
      var s1 := Fetch(img, s).s;
      TraceAppend(img, marks, s1, t, m - 1, n);
      var e := Show(MarkAt(marks, s.regs.ip), s1);
      assert e + (Trace(img, marks, s1, m - 1) + Trace(img, marks, t, n)) ==
             (e + Trace(img, marks, s1, m - 1)) + Trace(img, marks, t, n);
    }
  }

  lemma TakesNone(img: Image, marks: seq<Mark>, s: State)
    ensures Takes(img, marks, s, s, 0, [])
  {
  }

  lemma TakesTrans(img: Image, marks: seq<Mark>, s: State, t: State, u: State, m: nat, n: nat, a: seq<Event>, b: seq<Event>)
    requires Takes(img, marks, s, t, m, a) && Takes(img, marks, t, u, n, b)
    ensures Takes(img, marks, s, u, m + n, a + b)
  {
    hide Run, Trace;
    RunAppend(img, s, t, m, n);
    TraceAppend(img, marks, s, t, m, n);
  }

  /** On from a stretch that shows nothing. */
  lemma TakesOn(img: Image, marks: seq<Mark>, s: State, t: State, u: State, m: nat, n: nat, b: seq<Event>)
    requires Takes(img, marks, s, t, m, []) && Takes(img, marks, t, u, n, b)
    ensures Takes(img, marks, s, u, m + n, b)
  {
    hide Takes;
    TakesTrans(img, marks, s, t, u, m, n, [], b);
    assert [] + b == b;
  }

  lemma TakesStep(img: Image, marks: seq<Mark>, s: State, t: State)
    requires Fetch(img, s) == Next(t)
    ensures Takes(img, marks, s, t, 1, Show(MarkAt(marks, s.regs.ip), t))
  {
    hide Fetch, Show, MarkAt;
    assert Run(img, t, 0) == Next(t) && Trace(img, marks, t, 0) == [];
    var e := Show(MarkAt(marks, s.regs.ip), t);
    assert e + [] == e;
    assert Run(img, s, 1) == Next(t) && Trace(img, marks, s, 1) == e;
  }

  lemma ShowsSelf(img: Image, marks: seq<Mark>, s: State)
    ensures Shows(img, marks, s, s, [])
  {
    TakesNone(img, marks, s);
  }

  lemma ShowsTrans(img: Image, marks: seq<Mark>, s: State, t: State, u: State, a: seq<Event>, b: seq<Event>)
    requires Shows(img, marks, s, t, a) && Shows(img, marks, t, u, b)
    ensures Shows(img, marks, s, u, a + b)
  {
    hide Takes;
    var m: nat :| Takes(img, marks, s, t, m, a);
    var n: nat :| Takes(img, marks, t, u, n, b);
    TakesTrans(img, marks, s, t, u, m, n, a, b);
  }

  /** Marks for a stretch of n instructions of which only the last one is looked at. */
  function EndMarks(m: Mark, n: nat): (r: seq<Mark>)
    ensures |r| == n && forall i :: 0 <= i < n ==> r[i] == if i == n - 1 then m else NoMark
  {
    seq(n, i => if i == n - 1 then m else NoMark)
  }

  predicate MarksAt(marks: seq<Mark>, k: nat, part: seq<Mark>) {
    k + |part| <= |marks| && marks[k..k + |part|] == part
  }

  lemma MarksAppend(marks: seq<Mark>, k: nat, a: seq<Mark>, b: seq<Mark>)
    requires MarksAt(marks, k, a + b)
    ensures MarksAt(marks, k, a) && MarksAt(marks, k + |a|, b)
  {
    var r := marks[k..k + |a + b|];
    assert marks[k..k + |a|] == r[..|a|] && marks[k + |a|..k + |a| + |b|] == r[|a|..];
  }

  /** Straight code, an instruction a step, shows what its last instruction is marked with. */
  lemma {:induction false} StraightTakes(names: Names, code: seq<Instr>, m: Mark, k: nat, img: Image, marks: seq<Mark>, s: State)
    requires Loaded(Lines(code), k, img, names) && s.regs.ip == 4 * k && (code != [] || m.NoMark?)
    requires MarksAt(marks, k, EndMarks(m, |code|)) && RunSeq(names, code, s, img.lim).Next?
    ensures var t := RunSeq(names, code, s, img.lim).s;
            Takes(img, marks, s, t, |code|, Show(m, t)) && t.regs.ip == 4 * (k + |code|)
    decreases |code|
  {
    hide Exec, Resolve, Show, Takes;
    if code == [] {
      ShowsNothing(s);
      TakesNone(img, marks, s);
    } else {
      assert Lines(code)[0] == Ins(code[0]) && Lines(code)[1..] == Lines(code[1..]);
      var s1 := Exec(Resolve(names, code[0]), s, img.lim).s;
      assert Fetch(img, s) == Next(s1);
      TakesStep(img, marks, s, s1);
      assert MarkAt(marks, s.regs.ip) == marks[k] == EndMarks(m, |code|)[0];
      if |code| == 1 {
        assert code[1..] == [];
      } else {
        FirstUnmarked(m, |code|, marks, k);
        StraightTakes(names, code[1..], m, k + 1, img, marks, s1);
        var t := RunSeq(names, code[1..], s1, img.lim).s;
        ShowsNothing(s1);
        TakesOn(img, marks, s, s1, t, 1, |code| - 1, Show(m, t));
      }
    }
  }

  lemma ShowsNothing(t: State)
    ensures Show(NoMark, t) == []
  {
  }

  lemma FirstUnmarked(m: Mark, n: nat, marks: seq<Mark>, k: nat)
    requires n > 1 && MarksAt(marks, k, EndMarks(m, n))
    ensures EndMarks(m, n)[0] == NoMark && MarksAt(marks, k + 1, EndMarks(m, n - 1))
  {
    assert EndMarks(m, n) == [NoMark] + EndMarks(m, n - 1);
    MarksAppend(marks, k, [NoMark], EndMarks(m, n - 1));
  }
}
