/**
 Properties of programs under the interpreter: which variables a statement can change,
 how often a counted loop goes round, and that more stack or more fuel never changes
 an answer.
 */
module Loops {
  import opened Words
  import opened Nodes
  import opened Interp
  import opened Checks
  import opened Traces

  /** The variables an expression reads outside calls. */
  function Reads(e: Expr): set<string> {
    match e
    case Num(_) | CallE(_, _) => {}
    case Name(x) => {x}
    case Bin(_, l, r) => Reads(l) + Reads(r)
  }

  /** The two variable maps give `x` the same value, or neither gives it one. */
  predicate SameAt(vars: Vars, w: Vars, x: string) {
    (x in vars <==> x in w) && (x in vars ==> vars[x] == w[x])
  }

  predicate Keeps(vars: Vars, flow: Option<Flow>, x: string) {
    match flow
    case Some(Normal(w)) => SameAt(vars, w, x)
    case _ => true
  }

  lemma {:induction false} KeepsS(p: Program, st: Stmt, vars: Vars, room: int, fuel: nat, x: string)
    requires x !in Assigned(st)
    ensures Keeps(vars, ExecS(p, st, vars, room, fuel), x)
    decreases 2 * fuel + 1, st, 3
  {
    hide EvalE, EvalCall, ExecSs, ExecLoop;
    match st
    case If(_, _, _, body) => KeepsSs(p, body, vars, room, fuel, x);
    case For(i, from, _, _) =>
      var v := EvalE(p, from, vars, room, fuel);
      if v.Some? {
        KeepsLoop(p, st, vars[i := v.value], room, fuel, x);
      }
    case _ =>
  }

  /** A statement list changes no variable but those it assigns. */
  lemma {:induction false} KeepsSs(p: Program, ss: seq<Stmt>, vars: Vars, room: int, fuel: nat, x: string)
    requires x !in AssignedSs(ss)
    ensures Keeps(vars, ExecSs(p, ss, vars, room, fuel), x)
    decreases 2 * fuel + 1, ss, 0
  {
    hide ExecS;
    if ss != [] {
      KeepsS(p, ss[0], vars, room, fuel, x);
      var o := ExecS(p, ss[0], vars, room, fuel);
      if o.Some? && o.value.Normal? {
        KeepsSs(p, ss[1..], o.value.vars, room, fuel, x);
      }
    }
  }

  lemma {:induction false} KeepsLoop(p: Program, st: Stmt, vars: Vars, room: int, fuel: nat, x: string)
    requires st.For? && x !in Assigned(st)
    ensures Keeps(vars, ExecLoop(p, st, vars, room, fuel), x)
    decreases 2 * fuel + 1, st, 2
  {
    hide EvalE, ExecSs;
    if fuel > 0 {
      KeepsSs(p, st.body, vars, room, fuel, x);
      var o := ExecSs(p, st.body, vars, room, fuel);
      if o.Some? && o.value.Normal? && st.x in o.value.vars {
        var w := o.value.vars;
        KeepsLoop(p, st, w[st.x := Wrap(w[st.x] as int + 1)], room, fuel - 1, x);
      }
    }
  }

  /** A call-free expression depends only on the variables it reads. */
  lemma {:induction false} PlainValue(p: Program, e: Expr, vars: Vars, w: Vars, room: int, fuel: nat, room': int, fuel': nat)
    requires Temps(e) == 0 && forall x :: x in Reads(e) ==> SameAt(vars, w, x)
    ensures EvalE(p, e, vars, room, fuel) == EvalE(p, e, w, room', fuel')
  {
    match e
    case Bin(_, l, r) =>
      PlainValue(p, l, vars, w, room, fuel, room', fuel');
      PlainValue(p, r, vars, w, room, fuel, room', fuel');
    case Num(n) => assert EvalE(p, e, w, room', fuel') == Some(Wrap(n));
    case Name(x) =>
      assert SameAt(vars, w, x);
      assert EvalE(p, e, w, room', fuel') == if x in w then Some(w[x]) else None;
  }

  // How often a loop goes round ------------------------------------------------------

  /** How many steps of +1 take `i` to `end`, at least one of them. */
  function Trips(i: u16, end: u16): (n: nat)
    ensures 1 <= n <= 0x1_0000 && Wrap(i + n) == end
  {
    Wrap(end - i - 1) + 1
  }

  /** The body `n` times, the index going up by one (modulo 2^16) after each. */
  function Rounds(p: Program, st: Stmt, vars: Vars, room: int, fuel: nat, n: nat): Option<Flow>
    requires st.For? && n <= fuel
    decreases n
  {
    if n == 0 then Some(Normal(vars))
    else
      match ExecSs(p, st.body, vars, room, fuel)
      case Some(Normal(w)) =>
        if st.x in w then Rounds(p, st, w[st.x := Wrap(w[st.x] as int + 1)], room, fuel - 1, n - 1) else None
      case other => other
  }

  /** The body leaves the index and everything the end value reads alone. */
  predicate Steady(st: Stmt)
    requires st.For?
  {
    && Temps(st.to) == 0
    && st.x !in AssignedSs(st.body) && st.x !in Reads(st.to)
    && forall x :: x in Reads(st.to) ==> x !in AssignedSs(st.body)
  }

  /** One trip of a steady loop: the index goes up by one, the end value stays. */
  lemma OneRound(p: Program, st: Stmt, vars: Vars, w: Vars, room: int, fuel: nat, fuel': nat)
    requires st.For? && Steady(st) && st.x in vars
    requires ExecSs(p, st.body, vars, room, fuel) == Some(Normal(w))
    ensures st.x in w && w[st.x] == vars[st.x]
    ensures EvalE(p, st.to, w[st.x := Wrap(w[st.x] as int + 1)], room, fuel') == EvalE(p, st.to, vars, room, fuel)
  {
    hide ExecSs, EvalE;
    KeepsSs(p, st.body, vars, room, fuel, st.x);
    var w1 := w[st.x := Wrap(w[st.x] as int + 1)];
    forall x | x in Reads(st.to) ensures SameAt(vars, w1, x) {
      KeepsSs(p, st.body, vars, room, fuel, x);
    }
    PlainValue(p, st.to, vars, w1, room, fuel, room, fuel');
  }

  /**
   A loop whose body assigns neither the index nor what the end value reads runs its body
   exactly ((end - start - 1) mod 2^16) + 1 times; the end value is never tested before
   the first trip, so there is always one.
   */
  lemma {:induction false} LoopTrips(p: Program, st: Stmt, vars: Vars, end: u16, room: int, fuel: nat)
    requires st.For? && Steady(st) && st.x in vars
    requires EvalE(p, st.to, vars, room, fuel) == Some(end)
    requires room >= 2 && room >= 2 * EDepth(st.to) && fuel >= Trips(vars[st.x], end)
    ensures ExecLoop(p, st, vars, room, fuel) == Rounds(p, st, vars, room, fuel, Trips(vars[st.x], end))
    decreases fuel
  {
    hide EvalE, ExecSs, ExecLoop, Rounds, Trips, Steady;
    var o := ExecSs(p, st.body, vars, room, fuel);
    var n := Trips(vars[st.x], end);
    RoundsOnce(p, st, vars, room, fuel, n);
    if o.Some? && o.value.Normal? {
      var w := o.value.vars;
      OneRound(p, st, vars, w, room, fuel, fuel);
      OneRound(p, st, vars, w, room, fuel, fuel - 1);
      var i := Wrap(w[st.x] as int + 1);
      LoopOnce(p, st, vars, w, end, room, fuel);
      TripsOnce(vars[st.x], end);
      if i != end {
        LoopTrips(p, st, w[st.x := i], end, room, fuel - 1);
      } else {
        RoundsNone(p, st, w[st.x := i], room, fuel - 1);
      }
    } else {
      LoopLeft(p, st, vars, room, fuel);
    }
  }

  lemma TripsOnce(i: u16, end: u16)
    ensures Trips(i, end) == if Wrap(i + 1) == end then 1 else Trips(Wrap(i + 1), end) + 1
  {
  }

  lemma RoundsNone(p: Program, st: Stmt, vars: Vars, room: int, fuel: nat)
    requires st.For?
    ensures Rounds(p, st, vars, room, fuel, 0) == Some(Normal(vars))
  {
  }

  lemma RoundsOnce(p: Program, st: Stmt, vars: Vars, room: int, fuel: nat, n: nat)
    requires st.For? && 0 < n <= fuel
    ensures Rounds(p, st, vars, room, fuel, n) ==
            match ExecSs(p, st.body, vars, room, fuel)
            case Some(Normal(w)) =>
              if st.x in w then Rounds(p, st, w[st.x := Wrap(w[st.x] as int + 1)], room, fuel - 1, n - 1) else None
            case other => other
  {
    hide ExecSs;
  }

  /** The body was left early. */
  lemma LoopLeft(p: Program, st: Stmt, vars: Vars, room: int, fuel: nat)
    requires st.For? && fuel > 0
    ensures var o := ExecSs(p, st.body, vars, room, fuel);
            !(o.Some? && o.value.Normal?) ==> ExecLoop(p, st, vars, room, fuel) == o
  {
    hide ExecSs, EvalE;
  }

  lemma LoopOnce(p: Program, st: Stmt, vars: Vars, w: Vars, end: u16, room: int, fuel: nat)
    requires st.For? && fuel > 0 && ExecSs(p, st.body, vars, room, fuel) == Some(Normal(w)) && st.x in w
    requires room >= 2 && room >= 2 * EDepth(st.to)
    requires EvalE(p, st.to, w[st.x := Wrap(w[st.x] as int + 1)], room, fuel) == Some(end)
    ensures var i := Wrap(w[st.x] as int + 1);
            ExecLoop(p, st, vars, room, fuel) ==
            if i == end then Some(Normal(w[st.x := i])) else ExecLoop(p, st, w[st.x := i], room, fuel - 1)
  {
    hide ExecSs, EvalE;
  }

  /** When the trips all come through, the index ends on the end value. */
  lemma {:induction false} RoundsIndex(p: Program, st: Stmt, vars: Vars, room: int, fuel: nat, n: nat)
    requires st.For? && Steady(st) && st.x in vars && n <= fuel
    ensures match Rounds(p, st, vars, room, fuel, n)
            case Some(Normal(w)) => st.x in w && w[st.x] == Wrap(vars[st.x] + n)
            case _ => true
    decreases n
  {
    hide EvalE, ExecSs;
    if n > 0 {
      var o := ExecSs(p, st.body, vars, room, fuel);
      if o.Some? && o.value.Normal? {
        var w := o.value.vars;
        OneRound(p, st, vars, w, room, fuel, fuel);
        RoundsIndex(p, st, w[st.x := Wrap(w[st.x] as int + 1)], room, fuel - 1, n - 1);
      }
    }
  }

  /** A counted loop that is left at its end leaves the index on the end value, always. */
  lemma LoopEnds(p: Program, st: Stmt, vars: Vars, end: u16, room: int, fuel: nat)
    requires st.For? && Steady(st) && st.x in vars
    requires EvalE(p, st.to, vars, room, fuel) == Some(end)
    requires room >= 2 && room >= 2 * EDepth(st.to) && fuel >= Trips(vars[st.x], end)
    ensures match ExecLoop(p, st, vars, room, fuel)
            case Some(Normal(w)) => st.x in w && w[st.x] == end
            case _ => true
  {
    hide EvalE, ExecLoop, Rounds;
    LoopTrips(p, st, vars, end, room, fuel);
    RoundsIndex(p, st, vars, room, fuel, Trips(vars[st.x], end));
  }

  // More stack and more fuel ----------------------------------------------------------

  /** `a` is no answer, or the same answer as `b`. */
  predicate Covers<T(==)>(a: Option<T>, b: Option<T>) {
    a.Some? ==> b == a
  }

  lemma {:induction false} MoreE(p: Program, e: Expr, vars: Vars, room: int, fuel: nat, room': int, fuel': nat)
    requires room <= room' && fuel <= fuel'
    ensures Covers(EvalE(p, e, vars, room, fuel), EvalE(p, e, vars, room', fuel'))
    ensures EvalE(p, e, vars, room, fuel).Some? ==> TraceE(p, e, vars, room', fuel') == TraceE(p, e, vars, room, fuel)
    decreases 2 * fuel + 1, e, 1
  {
    hide EvalCall, TraceCall;
    match e
    case Bin(_, l, r) =>
      MoreE(p, l, vars, room, fuel, room', fuel');
      MoreE(p, r, vars, room, fuel, room', fuel');
    case CallE(f, args) => MoreCall(p, f, args, vars, room, fuel, room', fuel');
    case _ =>
  }

  lemma {:induction false} MoreArgs(p: Program, args: seq<Expr>, vars: Vars, room: int, fuel: nat, room': int, fuel': nat)
    requires room <= room' && fuel <= fuel'
    ensures Covers(EvalArgs(p, args, vars, room, fuel), EvalArgs(p, args, vars, room', fuel'))
    ensures EvalArgs(p, args, vars, room, fuel).Some? ==>
              TraceArgs(p, args, vars, room', fuel') == TraceArgs(p, args, vars, room, fuel)
    decreases 2 * fuel + 1, args, 0
  {
    hide EvalE, TraceE;
    if args != [] {
      MoreE(p, args[0], vars, room, fuel, room', fuel');
      MoreArgs(p, args[1..], vars, room, fuel, room', fuel');
    }
  }

  lemma {:induction false} MoreCall(p: Program, f: string, args: seq<Expr>, vars: Vars, room: int, fuel: nat, room': int, fuel': nat)
    requires room <= room' && fuel <= fuel'
    ensures Covers(EvalCall(p, f, args, vars, room, fuel), EvalCall(p, f, args, vars, room', fuel'))
    ensures EvalCall(p, f, args, vars, room, fuel).Some? ==>
              TraceCall(p, f, args, vars, room', fuel') == TraceCall(p, f, args, vars, room, fuel)
    decreases 2 * fuel + 1, args, 1
  {
    hide EvalArgs, CallF, TraceArgs, TraceF;
    MoreArgs(p, args, vars, room, fuel, room', fuel');
    var vs := EvalArgs(p, args, vars, room, fuel);
    if vs.Some? {
      MoreF(p, f, vs.value, room - 2, fuel, room' - 2, fuel');
    }
  }

  /** A call answered within some stack and fuel has the same answer and shows the
      same events with more of either. */
  lemma {:induction false} MoreF(p: Program, f: string, args: seq<u16>, room: int, fuel: nat, room': int, fuel': nat)
    requires room <= room' && fuel <= fuel'
    ensures Covers(CallF(p, f, args, room, fuel), CallF(p, f, args, room', fuel'))
    ensures CallF(p, f, args, room, fuel).Some? ==>
              TraceF(p, f, args, room', fuel') == TraceF(p, f, args, room, fuel)
    decreases 2 * fuel
  {
    hide ExecSs, TraceSs;
    if fuel > 0 && FindFunc(p, f).Some? {
      var fn := FindFunc(p, f).value;
      if |args| == |fn.params| {
        MoreSs(p, fn.body, ParamVars(fn.params, args), room - FrameBytes(fn), fuel - 1, room' - FrameBytes(fn), fuel' - 1);
      }
    }
  }

  lemma {:induction false} MoreS(p: Program, st: Stmt, vars: Vars, room: int, fuel: nat, room': int, fuel': nat)
    requires room <= room' && fuel <= fuel'
    ensures Covers(ExecS(p, st, vars, room, fuel), ExecS(p, st, vars, room', fuel'))
    ensures ExecS(p, st, vars, room, fuel).Some? ==> TraceS(p, st, vars, room', fuel') == TraceS(p, st, vars, room, fuel)
    decreases 2 * fuel + 1, st, 3
  {
    hide EvalE, EvalCall, ExecSs, ExecLoop, TraceE, TraceCall, TraceSs, TraceLoop;
    match st
    case Assign(_, e) => MoreE(p, e, vars, room, fuel, room', fuel');
    case If(_, l, r, body) =>
      MoreE(p, l, vars, room, fuel, room', fuel');
      MoreE(p, r, vars, room, fuel, room', fuel');
      MoreSs(p, body, vars, room, fuel, room', fuel');
    case For(x, from, to, body) =>
      MoreE(p, from, vars, room, fuel, room', fuel');
      var v := EvalE(p, from, vars, room, fuel);
      if v.Some? {
        MoreLoop(p, st, vars[x := v.value], room, fuel, room', fuel');
      }
    case Return(Some(e)) => MoreE(p, e, vars, room, fuel, room', fuel');
    case CallS(f, args) => MoreCall(p, f, args, vars, room, fuel, room', fuel');
    case _ =>
  }

  lemma {:induction false} MoreSs(p: Program, ss: seq<Stmt>, vars: Vars, room: int, fuel: nat, room': int, fuel': nat)
    requires room <= room' && fuel <= fuel'
    ensures Covers(ExecSs(p, ss, vars, room, fuel), ExecSs(p, ss, vars, room', fuel'))
    ensures ExecSs(p, ss, vars, room, fuel).Some? ==> TraceSs(p, ss, vars, room', fuel') == TraceSs(p, ss, vars, room, fuel)
    decreases 2 * fuel + 1, ss, 0
  {
    hide ExecS, TraceS;
    if ss != [] {
      MoreS(p, ss[0], vars, room, fuel, room', fuel');
      var o := ExecS(p, ss[0], vars, room, fuel);
      if o.Some? && o.value.Normal? {
        MoreSs(p, ss[1..], o.value.vars, room, fuel, room', fuel');
      }
    }
  }

  lemma {:induction false} MoreLoop(p: Program, st: Stmt, vars: Vars, room: int, fuel: nat, room': int, fuel': nat)
    requires st.For? && room <= room' && fuel <= fuel'
    ensures Covers(ExecLoop(p, st, vars, room, fuel), ExecLoop(p, st, vars, room', fuel'))
    ensures ExecLoop(p, st, vars, room, fuel).Some? ==> TraceLoop(p, st, vars, room', fuel') == TraceLoop(p, st, vars, room, fuel)
    decreases 2 * fuel + 1, st, 2
  {
    hide EvalE, ExecSs, TraceE, TraceSs;
    if fuel > 0 {
      MoreSs(p, st.body, vars, room, fuel, room', fuel');
      var o := ExecSs(p, st.body, vars, room, fuel);
      if o.Some? && o.value.Normal? && st.x in o.value.vars {
        var w := o.value.vars[st.x := Wrap(o.value.vars[st.x] as int + 1)];
        MoreE(p, st.to, w, room, fuel, room', fuel');
        MoreLoop(p, st, w, room, fuel - 1, room', fuel' - 1);
      }
    }
  }

  /** Two runs that both answer give the same answer and show the same events, whatever stack and fuel they had. */
  lemma AnswerUnique(p: Program, f: string, args: seq<u16>, room: int, fuel: nat, room': int, fuel': nat)
    requires CallF(p, f, args, room, fuel).Some? && CallF(p, f, args, room', fuel').Some?
    ensures CallF(p, f, args, room, fuel) == CallF(p, f, args, room', fuel')
    ensures TraceF(p, f, args, room, fuel) == TraceF(p, f, args, room', fuel')
  {
    hide CallF, TraceF;
    var r, n := if room <= room' then room' else room, if fuel <= fuel' then fuel' else fuel;
    MoreF(p, f, args, room, fuel, r, n);
    MoreF(p, f, args, room', fuel', r, n);
  }
}
