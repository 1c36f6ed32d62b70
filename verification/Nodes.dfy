/**
 The part of the Leaf syntax tree the whole-program theorem is about: functions of
 integer locals with assignment, comparison, counted loops, calls and returns.
 */
module Nodes {
  import opened Words
  import opened Values

  datatype Expr =
    | Num(n: int)
    | Name(x: string)
    | Bin(op: BinOp, left: Expr, right: Expr)
    | CallE(f: string, args: seq<Expr>)

  datatype Stmt =
    | Decl(x: string)
    | Assign(x: string, e: Expr)
    | If(equal: bool, left: Expr, right: Expr, body: seq<Stmt>)
    | For(x: string, from: Expr, to: Expr, body: seq<Stmt>)
    | Return(value: Option<Expr>)
    | CallS(f: string, args: seq<Expr>)

  datatype Func = Func(name: string, params: seq<string>, body: seq<Stmt>)

  type Program = seq<Func>

  /** The first function of that name, as `find_func` looks it up. */
  function FindFunc(p: Program, name: string): (r: Option<Func>)
    ensures r.Some? ==> exists i :: 0 <= i < |p| && p[i] == r.value && p[i].name == name &&
                                    forall j :: 0 <= j < i ==> p[j].name != name
    ensures r.None? ==> forall i :: 0 <= i < |p| ==> p[i].name != name
  {
    if p == [] then None
    else if p[0].name == name then Some(p[0])
    else FindFunc(p[1..], name)
  }

  // How many temporaries and labels the compiler makes ---------------------

  function Temps(e: Expr): nat
    decreases e, 1
  {
    match e
    case Num(_) | Name(_) => 0
    case Bin(_, l, r) => Temps(l) + Temps(r)
    case CallE(_, args) => 1 + TempsArgs(args)
  }

  function TempsArgs(args: seq<Expr>): nat
    decreases args, 0
  {
    if args == [] then 0 else Temps(args[0]) + TempsArgs(args[1..])
  }

  function TempsS(st: Stmt): nat
    decreases st, 1
  {
    match st
    case Decl(_) => 0
    case Assign(_, e) => Temps(e)
    case If(_, l, r, body) => Temps(l) + Temps(r) + TempsSs(body)
    case For(_, from, to, body) => Temps(from) + TempsSs(body) + Temps(to)
    case Return(None) => 0
    case Return(Some(e)) => Temps(e)
    case CallS(_, args) => TempsArgs(args)
  }

  function TempsSs(ss: seq<Stmt>): nat
    decreases ss, 0
  {
    if ss == [] then 0 else TempsS(ss[0]) + TempsSs(ss[1..])
  }

  function Labels(st: Stmt): nat
    decreases st, 1
  {
    match st
    case If(_, _, _, body) => 2 + LabelsSs(body)
    case For(_, _, _, body) => 2 + LabelsSs(body)
    case _ => 0
  }

  function LabelsSs(ss: seq<Stmt>): nat
    decreases ss, 0
  {
    if ss == [] then 0 else Labels(ss[0]) + LabelsSs(ss[1..])
  }

  /** Stack words the evaluation of a tree pushes once its calls are hoisted out. */
  function EDepth(e: Expr): nat {
    match e
    case Bin(_, l, r) => if EDepth(r) >= EDepth(l) + 1 then EDepth(r) else EDepth(l) + 1
    case _ => 0
  }

  function ArgsDepth(args: seq<Expr>): nat {
    if args == [] then 0
    else
      var d := ArgsDepth(args[1..]);
      if EDepth(args[0]) >= d then EDepth(args[0]) else d
  }
}
