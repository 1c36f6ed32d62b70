/**
 From syntax trees to blocks: calls are hoisted out of values into temporaries, and
 control structure becomes labels and jumps.
 */
module Compile {
  import opened Words
  import opened Values
  import opened Emit
  import opened Frames
  import opened Nodes
  import opened Text

  datatype JmpKind = Always | Eq | Neq

  datatype Block =
    | Preamble
    | Epilogue
    | LocalB(slot: Slot)
    | StoreB(place: Place, v: Value)
    | StoreReturn(v: Value)
    | StoreResult(x: Var)
    | StoreArg(x: Var, arg: nat)
    | CallB(f: string, args: seq<Value>)
    | JmpB(kind: JmpKind, dest: string)
    | LabelB(name: string)
    | CmpB(left: Value, right: Value)

  function LocalValue(x: Var): Value {
    Local(x, 0, false, false)
  }

  function PlainPlace(x: Var): Place {
    PVar(x, 0)
  }

  /** The value of an expression when its first call gets temporary number `vi`. */
  function ConvValue(e: Expr, vi: nat): Value {
    match e
    case Num(n) => Imm(n)
    case Name(x) => LocalValue(User(x))
    case Bin(op, l, r) => Op(op, ConvValue(l, vi), ConvValue(r, vi + Temps(l)))
    case CallE(_, _) => LocalValue(Temp(vi))
  }

  function ConvArgs(args: seq<Expr>, vi: nat): (r: seq<Value>)
    ensures |r| == |args|
  {
    if args == [] then []
    else [ConvValue(args[0], vi)] + ConvArgs(args[1..], vi + Temps(args[0]))
  }

  /** The blocks queued while an expression is converted: every call, inner ones first. */
  function ConvBlocks(e: Expr, vi: nat): seq<Block>
    decreases e, 1
  {
    match e
    case Num(_) | Name(_) => []
    case Bin(_, l, r) => ConvBlocks(l, vi) + ConvBlocks(r, vi + Temps(l))
    case CallE(f, args) =>
      ConvArgsBlocks(args, vi + 1) + [CallB(f, ConvArgs(args, vi + 1)), StoreResult(Temp(vi))]
  }

  function ConvArgsBlocks(args: seq<Expr>, vi: nat): seq<Block>
    decreases args, 0
  {
    if args == [] then []
    else ConvBlocks(args[0], vi) + ConvArgsBlocks(args[1..], vi + Temps(args[0]))
  }

  function LLabel(n: nat): string {
    "L" + Dec(n)
  }

  function ELabel(n: nat): string {
    "E" + Dec(n)
  }

  /** The function's exit label. */
  const EXIT := "E"

  /** The blocks of one statement; `vi` and `li` number its temporaries and labels. */
  function StmtBlocks(st: Stmt, vi: nat, li: nat): seq<Block>
    decreases st, 1
  {
    match st
    case Decl(_) => []
    case Assign(x, e) => ConvBlocks(e, vi) + [StoreB(PlainPlace(User(x)), ConvValue(e, vi))]
    case If(equal, l, r, body) =>
      var vr := vi + Temps(l);
      ConvBlocks(l, vi) + ConvBlocks(r, vr) +
      ([CmpB(ConvValue(l, vi), ConvValue(r, vr)),
        JmpB(if equal then Eq else Neq, LLabel(li)), JmpB(Always, LLabel(li + 1)), LabelB(LLabel(li))] +
       (StmtsBlocks(body, vr + Temps(r), li + 2) + [LabelB(LLabel(li + 1))]))
    case For(x, from, to, body) =>
      var vb := vi + Temps(from);
      var vt := vb + TempsSs(body);
      ForHead(x, from, vi, li) + (StmtsBlocks(body, vb, li + 1) + ForTail(x, to, vt, li, li + 1 + LabelsSs(body)))
    case Return(None) => [JmpB(Always, EXIT)]
    case Return(Some(e)) => ConvBlocks(e, vi) + [StoreReturn(ConvValue(e, vi)), JmpB(Always, EXIT)]
    case CallS(f, args) => ConvArgsBlocks(args, vi) + [CallB(f, ConvArgs(args, vi))]
  }

  /** The store of the start value is queued before the calls in the start value are. */
  function ForHead(x: string, from: Expr, vi: nat, li: nat): seq<Block> {
    [StoreB(PlainPlace(User(x)), ConvValue(from, vi))] + ConvBlocks(from, vi) + [LabelB(LLabel(li))]
  }

  /** Likewise the increment and the comparison before the calls in the end value. */
  function ForTail(x: string, to: Expr, vi: nat, li: nat, end: nat): seq<Block> {
    [StoreB(PlainPlace(User(x)), Op(OpAdd, LocalValue(User(x)), Imm(1))),
     CmpB(LocalValue(User(x)), ConvValue(to, vi))] + ConvBlocks(to, vi) +
    [JmpB(Eq, ELabel(end)), JmpB(Always, LLabel(li)), LabelB(ELabel(end))]
  }

  function StmtsBlocks(ss: seq<Stmt>, vi: nat, li: nat): seq<Block>
    decreases ss, 0
  {
    if ss == [] then []
    else StmtBlocks(ss[0], vi, li) + StmtsBlocks(ss[1..], vi + TempsS(ss[0]), li + Labels(ss[0]))
  }

  // Locals, in the order they are allocated --------------------------------

  function TempList(vi: nat, n: nat): seq<Var> {
    seq(n, i requires 0 <= i < n => Temp(vi + i))
  }

  function LocalsS(st: Stmt, vi: nat): seq<Var>
    decreases st, 1
  {
    match st
    case Decl(x) => [User(x)]
    case If(_, l, r, body) =>
      TempList(vi, Temps(l) + Temps(r)) + LocalsSs(body, vi + Temps(l) + Temps(r))
    case For(x, from, to, body) =>
      var vb := vi + Temps(from);
      [User(x)] + TempList(vi, Temps(from)) + LocalsSs(body, vb) + TempList(vb + TempsSs(body), Temps(to))
    case _ => TempList(vi, TempsS(st))
  }

  function LocalsSs(ss: seq<Stmt>, vi: nat): seq<Var>
    decreases ss, 0
  {
    if ss == [] then []
    else LocalsS(ss[0], vi) + LocalsSs(ss[1..], vi + TempsS(ss[0]))
  }

  function UserVars(xs: seq<string>): (r: seq<Var>)
    ensures |r| == |xs|
  {
    seq(|xs|, i requires 0 <= i < |xs| => User(xs[i]))
  }

  function FuncLocals(f: Func): seq<Var> {
    UserVars(f.params) + LocalsSs(f.body, 0)
  }

  /** Every local of the subset is a 16-bit integer. */
  function IntSlots(xs: seq<Var>): (r: seq<Slot>)
    ensures |r| == |xs|
  {
    seq(|xs|, i requires 0 <= i < |xs| => Slot(xs[i], 2))
  }

  function FuncSlots(f: Func): seq<Slot> {
    IntSlots(FuncLocals(f))
  }

  // Whole functions --------------------------------------------------------

  /** Each local block is inserted right behind the preamble, so the last local comes first. */
  function LocalBlocks(slots: seq<Slot>): seq<Block> {
    if slots == [] then [] else LocalBlocks(slots[1..]) + [LocalB(slots[0])]
  }

  function ArgBlocks(params: seq<string>): (r: seq<Block>) {
    seq(|params|, i requires 0 <= i < |params| => StoreArg(User(params[i]), i))
  }

  function FuncBlocks(f: Func): seq<Block> {
    [Preamble] + (LocalBlocks(FuncSlots(f)) +
    (ArgBlocks(f.params) + (StmtsBlocks(f.body, 0, 0) + [LabelB(EXIT), Epilogue])))
  }
}
