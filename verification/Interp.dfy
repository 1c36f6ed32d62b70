/**
 What a program means: a structured interpreter over named 16-bit variables.
 `room` is the number of stack bytes left below the stack pointer; an evaluation that
 would need more gives no answer, nor does one that reads an unset variable, misses a
 function, or runs out of `fuel` (calls and loop iterations).
 */
module Interp {
  import opened Words
  import opened Values
  import opened Nodes
  import opened Compile
  import opened Traces

  type Vars = map<string, u16>

  datatype Flow = Normal(vars: Vars) | Returned(value: Option<u16>)

  /** Bytes a frame takes: the five saved registers, then the locals. */
  function FrameBytes(f: Func): nat {
    10 + 2 * |FuncLocals(f)|
  }

  function ParamVars(params: seq<string>, args: seq<u16>): Vars
    requires |params| == |args|
  {
    if params == [] then map[]
    else ParamVars(params[..|params| - 1], args[..|args| - 1])[params[|params| - 1] := args[|args| - 1]]
  }

  function EvalE(p: Program, e: Expr, vars: Vars, room: int, fuel: nat): Option<u16>
    decreases 2 * fuel + 1, e, 1
  {
    match e
    case Num(n) => Some(Wrap(n))
    case Name(x) => if x in vars then Some(vars[x]) else None
    case Bin(op, l, r) =>
      (match (EvalE(p, l, vars, room, fuel), EvalE(p, r, vars, room, fuel))
       case (Some(x), Some(y)) => Some(Wrap(BinArith(op, x, y)))
       case _ => None)
    case CallE(f, args) =>
      (match EvalCall(p, f, args, vars, room, fuel)
       case Some(Some(v)) => Some(v)
       case _ => None)
  }

  function EvalArgs(p: Program, args: seq<Expr>, vars: Vars, room: int, fuel: nat): (r: Option<seq<u16>>)
    ensures r.Some? ==> |r.value| == |args|
    decreases 2 * fuel + 1, args, 0
  {
    if args == [] then Some([])
    else
      match (EvalE(p, args[0], vars, room, fuel), EvalArgs(p, args[1..], vars, room, fuel))
      case (Some(v), Some(vs)) => Some([v] + vs)
      case _ => None
  }

  /** A call: arguments left to right, then the callee with two bytes less for the return
      address. `Some(None)` is a return without a value. */
  function EvalCall(p: Program, f: string, args: seq<Expr>, vars: Vars, room: int, fuel: nat): Option<Option<u16>>
    decreases 2 * fuel + 1, args, 1
  {
    match EvalArgs(p, args, vars, room, fuel)
    case None => None
    case Some(vs) =>
      if room < 2 || room < 2 * ArgsDepth(args) || |args| > 4 then None
      else CallF(p, f, vs, room - 2, fuel)
  }

  function CallF(p: Program, f: string, args: seq<u16>, room: int, fuel: nat): Option<Option<u16>>
    decreases 2 * fuel
  {
    if fuel == 0 then None
    else
      match FindFunc(p, f)
      case None => None
      case Some(fn) =>
        if |args| != |fn.params| || room < FrameBytes(fn) then None
        else
          match ExecSs(p, fn.body, ParamVars(fn.params, args), room - FrameBytes(fn), fuel - 1)
          case Some(Returned(v)) => Some(v)
          case Some(Normal(_)) => Some(None)
          case None => None
  }

  function ExecS(p: Program, st: Stmt, vars: Vars, room: int, fuel: nat): Option<Flow>
    decreases 2 * fuel + 1, st, 3
  {
    match st
    case Decl(_) => Some(Normal(vars))
    case Assign(x, e) =>
      (match EvalE(p, e, vars, room, fuel)
       case Some(v) => if room < 2 * EDepth(e) then None else Some(Normal(vars[x := v]))
       case None => None)
    case If(equal, l, r, body) =>
      (match (EvalE(p, l, vars, room, fuel), EvalE(p, r, vars, room, fuel))
       case (Some(x), Some(y)) =>
         if room < 2 * EDepth(l) || room < 2 * EDepth(r) then None
         else if (x == y) == equal then ExecSs(p, body, vars, room, fuel)
         else Some(Normal(vars))
       case _ => None)
    case For(x, from, to, body) =>
      (match EvalE(p, from, vars, room, fuel)
       case Some(v) =>
         if room < 2 * EDepth(from) then None else ExecLoop(p, st, vars[x := v], room, fuel)
       case None => None)
    case Return(None) => Some(Returned(None))
    case Return(Some(e)) =>
      (match EvalE(p, e, vars, room, fuel)
       case Some(v) => if room < 2 * EDepth(e) then None else Some(Returned(Some(v)))
       case None => None)
    case CallS(f, args) =>
      (match EvalCall(p, f, args, vars, room, fuel)
       case Some(_) => Some(Normal(vars))
       case None => None)
  }

  function ExecSs(p: Program, ss: seq<Stmt>, vars: Vars, room: int, fuel: nat): Option<Flow>
    decreases 2 * fuel + 1, ss, 0
  {
    if ss == [] then Some(Normal(vars))
    else
      match ExecS(p, ss[0], vars, room, fuel)
      case Some(Normal(w)) => ExecSs(p, ss[1..], w, room, fuel)
      case other => other
  }

  /** The body runs before the first test; the loop ends when the incremented index
      equals the end value. */
  function ExecLoop(p: Program, st: Stmt, vars: Vars, room: int, fuel: nat): Option<Flow>
    requires st.For?
    decreases 2 * fuel + 1, st, 2
  {
    if fuel == 0 then None
    else
      match ExecSs(p, st.body, vars, room, fuel)
      case Some(Normal(w)) =>
        if st.x !in w || room < 2 || room < 2 * EDepth(st.to) then None
        else
          var i := Wrap(w[st.x] as int + 1);
          (match EvalE(p, st.to, w[st.x := i], room, fuel)
           case Some(end) =>
             if i == end then Some(Normal(w[st.x := i]))
             else ExecLoop(p, st, w[st.x := i], room, fuel - 1)
           case None => None)
      case other => other
  }

  // What a run shows -----------------------------------------------------------------------

  function Stores(v: Option<u16>): seq<Event> {
    match v
    case Some(x) => [EvStore(x)]
    case None => []
  }

  /** The arguments of a call stored into the parameters. */
  function ArgEvents(args: seq<u16>): (r: seq<Event>)
    ensures |r| == |args|
  {
    seq(|args|, i requires 0 <= i < |args| => EvStore(args[i]))
  }

  /** The events of a run in the program's own terms: every value stored, every call with its
      arguments, every value returned and every condition, in the order they come about. */
  function TraceE(p: Program, e: Expr, vars: Vars, room: int, fuel: nat): seq<Event>
    decreases 2 * fuel + 1, e, 1
  {
    match e
    case Num(_) | Name(_) => []
    case Bin(_, l, r) => TraceE(p, l, vars, room, fuel) + TraceE(p, r, vars, room, fuel)
    case CallE(f, args) => TraceCall(p, f, args, vars, room, fuel) + Stores(EvalE(p, e, vars, room, fuel))
  }

  function TraceArgs(p: Program, args: seq<Expr>, vars: Vars, room: int, fuel: nat): seq<Event>
    decreases 2 * fuel + 1, args, 0
  {
    if args == [] then []
    else TraceE(p, args[0], vars, room, fuel) + TraceArgs(p, args[1..], vars, room, fuel)
  }

  function TraceCall(p: Program, f: string, args: seq<Expr>, vars: Vars, room: int, fuel: nat): seq<Event>
    decreases 2 * fuel + 1, args, 1
  {
    match EvalArgs(p, args, vars, room, fuel)
    case Some(vs) => TraceArgs(p, args, vars, room, fuel) + ([EvCall(f, vs)] + TraceF(p, f, vs, room - 2, fuel))
    case None => []
  }

  function TraceF(p: Program, f: string, args: seq<u16>, room: int, fuel: nat): seq<Event>
    decreases 2 * fuel
  {
    if fuel == 0 then []
    else
      match FindFunc(p, f)
      case Some(fn) =>
        if |args| != |fn.params| then []
        else ArgEvents(args) + TraceSs(p, fn.body, ParamVars(fn.params, args), room - FrameBytes(fn), fuel - 1)
      case None => []
  }

  function TraceS(p: Program, st: Stmt, vars: Vars, room: int, fuel: nat): seq<Event>
    decreases 2 * fuel + 1, st, 3
  {
    match st
    case Decl(_) => []
    case Assign(x, e) => TraceE(p, e, vars, room, fuel) + Stores(EvalE(p, e, vars, room, fuel))
    case If(equal, l, r, body) =>
      var holds := (EvalE(p, l, vars, room, fuel) == EvalE(p, r, vars, room, fuel)) == equal;
      TraceE(p, l, vars, room, fuel) + TraceE(p, r, vars, room, fuel) +
      ([EvFlag(holds)] + if holds then TraceSs(p, body, vars, room, fuel) else [])
    case For(x, from, to, body) =>
      (match EvalE(p, from, vars, room, fuel)
       case Some(v) => TraceE(p, from, vars, room, fuel) + ([EvStore(v)] + TraceLoop(p, st, vars[x := v], room, fuel))
       case None => [])
    case Return(None) => []
    case Return(Some(e)) =>
      (match EvalE(p, e, vars, room, fuel)
       case Some(v) => TraceE(p, e, vars, room, fuel) + [EvReturn(v)]
       case None => [])
    case CallS(f, args) => TraceCall(p, f, args, vars, room, fuel)
  }

  function TraceSs(p: Program, ss: seq<Stmt>, vars: Vars, room: int, fuel: nat): seq<Event>
    decreases 2 * fuel + 1, ss, 0
  {
    if ss == [] then []
    else
      match ExecS(p, ss[0], vars, room, fuel)
      case Some(Normal(w)) => TraceS(p, ss[0], vars, room, fuel) + TraceSs(p, ss[1..], w, room, fuel)
      case _ => TraceS(p, ss[0], vars, room, fuel)
  }

  function TraceLoop(p: Program, st: Stmt, vars: Vars, room: int, fuel: nat): seq<Event>
    requires st.For?
    decreases 2 * fuel + 1, st, 2
  {
    if fuel == 0 then []
    else
      match ExecSs(p, st.body, vars, room, fuel)
      case Some(Normal(w)) =>
        if st.x !in w then TraceSs(p, st.body, vars, room, fuel)
        else
          var i := Wrap(w[st.x] as int + 1);
          var over := EvalE(p, st.to, w[st.x := i], room, fuel) == Some(i);
          TraceSs(p, st.body, vars, room, fuel) +
          ([EvStore(i)] + TraceE(p, st.to, w[st.x := i], room, fuel) +
           ([EvFlag(over)] + if over then [] else TraceLoop(p, st, w[st.x := i], room, fuel - 1)))
      case _ => TraceSs(p, st.body, vars, room, fuel)
  }
}
