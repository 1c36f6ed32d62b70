/**
 The compiler as an object that appends blocks, allocates locals and counts temporaries
 and labels, proved against the block functions; and what its own checks guarantee.
 */
module Compiler {
  import opened Words
  import opened Values
  import opened Emit
  import opened Frames
  import opened Nodes
  import opened Compile
  import opened Checks

  /** A declared function: how many parameters it has and whether it returns a value. */
  datatype Sig = Sig(name: string, arity: nat, valued: bool)

  const MAX_ARG: nat := 4

  function FindSig(sigs: seq<Sig>, name: string): Option<Sig> {
    if sigs == [] then None
    else if sigs[0].name == name then Some(sigs[0])
    else FindSig(sigs[1..], name)
  }

  // What the compiler accepts -----------------------------------------------------------

  predicate AcceptE(sigs: seq<Sig>, known: set<string>, e: Expr)
    decreases e, 1
  {
    match e
    case Num(_) => true
    case Name(x) => x in known
    case Bin(_, l, r) => AcceptE(sigs, known, l) && AcceptE(sigs, known, r)
    case CallE(f, args) =>
      FindSig(sigs, f).Some? && FindSig(sigs, f).value.valued &&
      |args| <= MAX_ARG && |args| == FindSig(sigs, f).value.arity && AcceptArgs(sigs, known, args)
  }

  predicate AcceptArgs(sigs: seq<Sig>, known: set<string>, args: seq<Expr>)
    decreases args, 0
  {
    args == [] || (AcceptE(sigs, known, args[0]) && AcceptArgs(sigs, known, args[1..]))
  }

  predicate AcceptCall(sigs: seq<Sig>, known: set<string>, f: string, args: seq<Expr>) {
    FindSig(sigs, f).Some? && |args| <= MAX_ARG && |args| == FindSig(sigs, f).value.arity && AcceptArgs(sigs, known, args)
  }

  /** `valued` says whether the enclosing function returns a value. */
  predicate AcceptS(sigs: seq<Sig>, known: set<string>, valued: bool, st: Stmt)
    decreases st, 1
  {
    match st
    case Decl(x) => x !in known
    case Assign(x, e) => x in known && AcceptE(sigs, known, e)
    case If(_, l, r, body) =>
      AcceptE(sigs, known, l) && AcceptE(sigs, known, r) && AcceptSs(sigs, known, valued, body)
    case For(x, from, to, body) =>
      && AcceptE(sigs, known + {x}, from) && AcceptSs(sigs, known + {x}, valued, body)
      && AcceptE(sigs, known + {x} + NameSet(body), to)
    case Return(None) => !valued
    case Return(Some(e)) => valued && AcceptE(sigs, known, e)
    case CallS(f, args) => AcceptCall(sigs, known, f, args)
  }

  predicate AcceptSs(sigs: seq<Sig>, known: set<string>, valued: bool, ss: seq<Stmt>)
    decreases ss, 0
  {
    ss == [] ||
    (AcceptS(sigs, known, valued, ss[0]) && AcceptSs(sigs, known + DeclSet(ss[0]), valued, ss[1..]))
  }

  function AsSet(names: seq<string>): set<string> {
    set x | x in names
  }

  /** The names a statement declares. */
  function DeclSet(st: Stmt): set<string> {
    AsSet(UserNames(st))
  }

  function NameSet(ss: seq<Stmt>): set<string> {
    AsSet(UserNamesSs(ss))
  }

  predicate AcceptFunc(sigs: seq<Sig>, valued: bool, f: Func) {
    AcceptSs(sigs, AsSet(f.params), valued, f.body)
  }

  // What acceptance guarantees ----------------------------------------------------------

  lemma NameSetCons(ss: seq<Stmt>)
    requires ss != []
    ensures NameSet(ss) == DeclSet(ss[0]) + NameSet(ss[1..])
  {
  }

  lemma {:induction false} AcceptedAssigns(sigs: seq<Sig>, known: set<string>, valued: bool, st: Stmt)
    requires AcceptS(sigs, known, valued, st)
    ensures Assigned(st) <= known + DeclSet(st)
    decreases st, 1
  {
    match st
    case If(_, _, _, body) => AcceptedAssignsSs(sigs, known, valued, body);
    case For(x, _, _, body) => AcceptedAssignsSs(sigs, known + {x}, valued, body);
    case _ =>
  }

  lemma {:induction false} AcceptedAssignsSs(sigs: seq<Sig>, known: set<string>, valued: bool, ss: seq<Stmt>)
    requires AcceptSs(sigs, known, valued, ss)
    ensures AssignedSs(ss) <= known + NameSet(ss)
    decreases ss, 0
  {
    if ss != [] {
      AcceptedAssigns(sigs, known, valued, ss[0]);
      AcceptedAssignsSs(sigs, known + DeclSet(ss[0]), valued, ss[1..]);
      NameSetCons(ss);
    }
  }

  /** Loop indices, which the compiler allocates without looking for an older local. */
  predicate FreshIndices(known: set<string>, st: Stmt)
    decreases st, 1
  {
    match st
    case If(_, _, _, body) => FreshIndicesSs(known, body)
    case For(x, _, _, body) => x !in known && FreshIndicesSs(known + {x}, body)
    case _ => true
  }

  predicate FreshIndicesSs(known: set<string>, ss: seq<Stmt>)
    decreases ss, 0
  {
    ss == [] || (FreshIndices(known, ss[0]) && FreshIndicesSs(known + DeclSet(ss[0]), ss[1..]))
  }

  /** The names are distinct, and none of them is known already. */
  ghost predicate FreshNames(known: set<string>, names: seq<string>) {
    NoDup(names) && forall x :: x in names ==> x !in known
  }

  lemma {:induction false} AcceptedNames(sigs: seq<Sig>, known: set<string>, valued: bool, st: Stmt)
    requires AcceptS(sigs, known, valued, st)
    ensures FreshIndices(known, st) <==> FreshNames(known, UserNames(st))
    decreases st, 1
  {
    match st
    case If(_, _, _, body) => AcceptedNamesSs(sigs, known, valued, body);
    case For(x, _, _, body) =>
      AcceptedNamesSs(sigs, known + {x}, valued, body);
      FreshCons(known, x, UserNamesSs(body));
    case _ =>
  }

  lemma FreshCons(known: set<string>, x: string, names: seq<string>)
    ensures FreshNames(known, [x] + names) <==> x !in known && FreshNames(known + {x}, names)
  {
    var all := [x] + names;
    if FreshNames(known, all) {
      NoDupSplit([x], names);
      assert x in [x] && x in all;
      forall y | y in names ensures y !in known + {x} {
        assert y in all;
      }
    }
    if x !in known && FreshNames(known + {x}, names) {
      NoDupConcat([x], names);
    }
  }

  lemma FreshConcat(known: set<string>, a: seq<string>, b: seq<string>)
    ensures FreshNames(known, a + b) <==>
            FreshNames(known, a) && FreshNames(known + AsSet(a), b)
  {
    if FreshNames(known, a + b) {
      NoDupSplit(a, b);
      forall y | y in a || y in b ensures y in a + b {}
    }
    if FreshNames(known, a) && FreshNames(known + AsSet(a), b) {
      NoDupConcat(a, b);
    }
  }

  /** The compiler rejects a repeated declaration but not a repeated loop index: among
      accepted programs the locals have distinct names exactly when the indices are fresh. */
  lemma {:induction false} AcceptedNamesSs(sigs: seq<Sig>, known: set<string>, valued: bool, ss: seq<Stmt>)
    requires AcceptSs(sigs, known, valued, ss)
    ensures FreshIndicesSs(known, ss) <==> FreshNames(known, UserNamesSs(ss))
    decreases ss, 0
  {
    hide FreshNames;
    if ss == [] {
      NoNames(known);
    } else {
      AcceptedNames(sigs, known, valued, ss[0]);
      AcceptedNamesSs(sigs, known + DeclSet(ss[0]), valued, ss[1..]);
      FreshConcat(known, UserNames(ss[0]), UserNamesSs(ss[1..]));
    }
  }

  lemma NoNames(known: set<string>)
    ensures FreshNames(known, [])
  {
  }

  /**
   A function the compiler accepts meets every condition of the correctness theorem but
   those the compiler does not look at: distinct parameters, fresh loop indices, no call in
   a loop bound, and a name that is not a local label.
   */
  lemma AcceptedIsGood(sigs: seq<Sig>, valued: bool, f: Func)
    requires AcceptFunc(sigs, valued, f)
    ensures GoodFunc(f) <==>
            && NoDup(f.params) && FreshIndicesSs(AsSet(f.params), f.body)
            && PlainBoundsSs(f.body) && |f.params| <= 4 && f.name != "" && '@' !in f.name
  {
    hide AcceptSs, FreshIndicesSs, AssignedSs, UserNamesSs;
    var known := AsSet(f.params);
    AcceptedNamesSs(sigs, known, valued, f.body);
    AcceptedAssignsSs(sigs, known, valued, f.body);
    FreshConcat({}, f.params, UserNamesSs(f.body));
    assert {} + known == known;
  }

  // The object -----------------------------------------------------------------------------

  function Known(locals: seq<Var>): set<string> {
    set v | v in locals && v.User? :: v.name
  }

  lemma KnownGrows(locals: seq<Var>, vi: nat, n: nat)
    ensures Known(locals + TempList(vi, n)) == Known(locals)
  {
  }

  lemma TempsJoin(vi: nat, m: nat, n: nat)
    ensures TempList(vi, m) + TempList(vi + m, n) == TempList(vi, m + n)
  {
  }

  lemma NothingLeft(vi: nat)
    ensures TempsArgs([]) == 0 && ConvArgs([], vi) == [] && ConvArgsBlocks([], vi) == [] && TempList(vi, 0) == []
  {
  }

  lemma LeafParts(sigs: seq<Sig>, known: set<string>, e: Expr, vi: nat)
    ensures match e
            case Num(n) => AcceptE(sigs, known, e) && ConvValue(e, vi) == Imm(n) && ConvBlocks(e, vi) == [] && Temps(e) == 0
            case Name(x) =>
              AcceptE(sigs, known, e) == (x in known) && ConvValue(e, vi) == LocalValue(User(x)) &&
              ConvBlocks(e, vi) == [] && Temps(e) == 0
            case _ => true
  {
  }

  lemma OperatorParts(sigs: seq<Sig>, known: set<string>, op: BinOp, l: Expr, r: Expr, vi: nat)
    ensures var e, mid := Bin(op, l, r), vi + Temps(l);
            && AcceptE(sigs, known, e) == (AcceptE(sigs, known, l) && AcceptE(sigs, known, r))
            && ConvValue(e, vi) == Op(op, ConvValue(l, vi), ConvValue(r, mid))
            && ConvBlocks(e, vi) == ConvBlocks(l, vi) + ConvBlocks(r, mid)
            && Temps(e) == Temps(l) + Temps(r)
  {
  }

  /** The first of the arguments still to come. */
  lemma ArgsStep(sigs: seq<Sig>, known: set<string>, args: seq<Expr>, i: nat, vi: nat)
    requires i < |args|
    ensures var mid := vi + Temps(args[i]);
            && AcceptArgs(sigs, known, args[i..]) == (AcceptE(sigs, known, args[i]) && AcceptArgs(sigs, known, args[i + 1..]))
            && TempsArgs(args[i..]) == Temps(args[i]) + TempsArgs(args[i + 1..])
            && ConvArgs(args[i..], vi) == [ConvValue(args[i], vi)] + ConvArgs(args[i + 1..], mid)
            && ConvArgsBlocks(args[i..], vi) == ConvBlocks(args[i], vi) + ConvArgsBlocks(args[i + 1..], mid)
  {
    hide AcceptE, ConvValue, ConvBlocks, Temps;
    assert args[i..][0] == args[i] && args[i..][1..] == args[i + 1..];
  }

  lemma Regroup(bs: seq<Block>, l: seq<Block>, r: seq<Block>, more: seq<Block>)
    ensures bs + l + r + more == bs + (l + r + more)
  {
  }

  lemma NoArgs(sigs: seq<Sig>, known: set<string>)
    ensures AcceptArgs(sigs, known, [])
  {
  }

  lemma LocalsKnown(ls: seq<Var>, more: seq<Var>, names: seq<string>, lo: nat, hi: nat)
    requires Shape(more, names, lo, hi)
    ensures Known(ls + more) == Known(ls) + AsSet(names)
  {
    forall x | x in Known(ls + more) ensures x in Known(ls) + AsSet(names) {
      assert User(x) in ls || User(x) in more;
    }
    forall x | x in Known(ls) + AsSet(names) ensures x in Known(ls + more) {
      assert User(x) in ls || User(x) in more;
    }
  }

  lemma StmtKnown(ls: seq<Var>, st: Stmt, vi: nat)
    ensures Known(ls + LocalsS(st, vi)) == Known(ls) + DeclSet(st)
  {
    hide LocalsS, UserNames, Shape, Known;
    ShapeS(st, vi);
    LocalsKnown(ls, LocalsS(st, vi), UserNames(st), vi, vi + TempsS(st));
  }

  lemma BodyKnown(ls: seq<Var>, ss: seq<Stmt>, vi: nat)
    ensures Known(ls + LocalsSs(ss, vi)) == Known(ls) + NameSet(ss)
  {
    hide LocalsSs, UserNamesSs, Shape, Known;
    ShapeSs(ss, vi);
    LocalsKnown(ls, LocalsSs(ss, vi), UserNamesSs(ss), vi, vi + TempsSs(ss));
  }

  lemma UserKnown(ls: seq<Var>, x: string)
    ensures Known(ls + [User(x)]) == Known(ls) + {x}
  {
    assert forall v :: v in ls + [User(x)] <==> v in ls || v == User(x);
  }

  lemma HeadKnown(ls: seq<Var>, x: string, vi: nat, n: nat)
    ensures Known(ls + ([User(x)] + TempList(vi, n))) == Known(ls) + {x}
  {
    hide Known;
    UserKnown(ls, x);
    KnownGrows(ls + [User(x)], vi, n);
    assert ls + ([User(x)] + TempList(vi, n)) == ls + [User(x)] + TempList(vi, n);
  }

  lemma ParamsKnown(params: seq<string>)
    ensures Known([] + UserVars(params)) == AsSet(params)
  {
    hide Known, Shape;
    ShapeParams(params);
    LocalsKnown([], UserVars(params), params, 0, 0);
    NobodyKnown();
  }

  lemma NobodyKnown()
    ensures Known([]) == {}
  {
  }

  lemma {:induction false} LocalBlocksSnoc(slots: seq<Slot>, last: Slot)
    ensures LocalBlocks(slots + [last]) == [LocalB(last)] + LocalBlocks(slots)
  {
    if slots == [] {
      assert [last][1..] == [];
    } else {
      assert (slots + [last])[1..] == slots[1..] + [last];
      LocalBlocksSnoc(slots[1..], last);
    }
  }

  class FuncCompiler {
    const sigs: seq<Sig>
    const valued: bool
    var blocks: seq<Block>
    var locals: seq<Var>
    var varIndex: nat
    var labelIndex: nat

    constructor (sigs: seq<Sig>, valued: bool)
      ensures this.sigs == sigs && this.valued == valued
      ensures blocks == [] && locals == [] && varIndex == 0 && labelIndex == 0
    {
      this.sigs, this.valued := sigs, valued;
      blocks, locals, varIndex, labelIndex := [], [], 0, 0;
    }

    /** The state is this one with blocks and n temporaries added. */
    ghost predicate Added(blocks0: seq<Block>, locals0: seq<Var>, vi: nat, bs: seq<Block>, n: nat)
      reads this
    {
      blocks == blocks0 + bs && locals == locals0 + TempList(vi, n) && varIndex == vi + n
    }

    method FindLocal(name: string) returns (found: bool)
      ensures found <==> name in Known(locals)
    {
      for i := 0 to |locals|
        invariant User(name) !in locals[..i]
      {
        if locals[i] == User(name) {
          return true;
        }
      }
      assert locals[..|locals|] == locals;
      return false;
    }

    method FindFunc(name: string) returns (sig: Option<Sig>)
      ensures sig == FindSig(sigs, name)
    {
      for i := 0 to |sigs|
        invariant FindSig(sigs, name) == FindSig(sigs[i..], name)
      {
        if sigs[i].name == name {
          return Some(sigs[i]);
        }
        assert sigs[i..][1..] == sigs[i + 1..];
      }
      return None;
    }

    /** Turns an expression into a value, queueing its calls first. */
    method ConvertNode(e: Expr) returns (ok: bool, v: Value)
      modifies this`blocks, this`locals, this`varIndex
      ensures ok == AcceptE(sigs, Known(old(locals)), e)
      ensures ok ==> v == ConvValue(e, old(varIndex))
      ensures ok ==> Added(old(blocks), old(locals), old(varIndex), ConvBlocks(e, old(varIndex)), Temps(e))
      decreases e, 1
    {
      hide AcceptE, ConvValue, ConvBlocks, Temps, Known, TempList;
      LeafParts(sigs, Known(locals), e, varIndex);
      NothingLeft(varIndex);
      v := Imm(0);
      match e
      case Num(n) =>
        ok, v := true, Imm(n);
      case Name(x) =>
        ok := FindLocal(x);
        v := LocalValue(User(x));
      case Bin(op, l, r) =>
        ghost var vi, ls := varIndex, locals;
        OperatorParts(sigs, Known(ls), op, l, r, vi);
        var left, right;
        ok, left := ConvertNode(l);
        if !ok { return; }
        KnownGrows(ls, vi, Temps(l));
        ok, right := ConvertNode(r);
        TempsJoin(vi, Temps(l), Temps(r));
        v := Op(op, left, right);
      case CallE(f, args) => ok, v := ConvertCall(f, args);
    }

    /** Allocates the temporary for the result, then compiles the call and the store. */
    method ConvertCall(f: string, args: seq<Expr>) returns (ok: bool, v: Value)
      modifies this`blocks, this`locals, this`varIndex
      ensures ok == AcceptE(sigs, Known(old(locals)), CallE(f, args))
      ensures ok ==> v == ConvValue(CallE(f, args), old(varIndex))
      ensures ok ==> Added(old(blocks), old(locals), old(varIndex), ConvBlocks(CallE(f, args), old(varIndex)), Temps(CallE(f, args)))
      decreases args, 2
    {
      v := Imm(0);
      ghost var vi, ls := varIndex, locals;
      var sig := FindFunc(f);
      if sig.None? || !sig.value.valued {
        return false, v;
      }
      var result := Temp(varIndex);
      locals := locals + [result];
      varIndex := varIndex + 1;
      assert locals == ls + TempList(vi, 1);
      KnownGrows(ls, vi, 1);
      ok := CompileCall(f, args);
      if !ok { return; }
      TempsJoin(vi, 1, TempsArgs(args));
      blocks := blocks + [StoreResult(result)];
      v := LocalValue(result);
    }

    method CompileCall(f: string, args: seq<Expr>) returns (ok: bool)
      modifies this`blocks, this`locals, this`varIndex
      ensures ok == AcceptCall(sigs, Known(old(locals)), f, args)
      ensures ok ==> Added(old(blocks), old(locals), old(varIndex),
                           ConvArgsBlocks(args, old(varIndex)) + [CallB(f, ConvArgs(args, old(varIndex)))], TempsArgs(args))
      decreases args, 1
    {
      hide AcceptE, AcceptArgs, ConvValue, ConvArgs, ConvBlocks, ConvArgsBlocks, Temps, TempsArgs, TempList, Known;
      NothingLeft(varIndex);
      NoArgs(sigs, Known(locals));
      var sig := FindFunc(f);
      if sig.None? {
        return false;
      }
      ghost var vi, ls, bs := varIndex, locals, blocks;
      var vs := [];
      for i := 0 to |args|
        invariant i <= MAX_ARG && |vs| == i
        invariant AcceptArgs(sigs, Known(ls), args) == AcceptArgs(sigs, Known(ls), args[i..])
        invariant varIndex >= vi && varIndex + TempsArgs(args[i..]) == vi + TempsArgs(args)
        invariant vs + ConvArgs(args[i..], varIndex) == ConvArgs(args, vi)
        invariant blocks + ConvArgsBlocks(args[i..], varIndex) == bs + ConvArgsBlocks(args, vi)
        invariant locals == ls + TempList(vi, varIndex - vi)
      {
        if i == MAX_ARG {
          return false;
        }
        KnownGrows(ls, vi, varIndex - vi);
        ghost var at := varIndex;
        ArgsStep(sigs, Known(ls), args, i, at);
        var v;
        ok, v := ConvertNode(args[i]);
        if !ok { return; }
        TempsJoin(vi, at - vi, Temps(args[i]));
        vs := vs + [v];
      }
      assert args[|args|..] == [];
      if |args| != sig.value.arity {
        return false;
      }
      NothingLeft(varIndex);
      assert vs == ConvArgs(args, vi) && blocks == bs + ConvArgsBlocks(args, vi);
      blocks := blocks + [CallB(f, vs)];
      assert blocks == bs + (ConvArgsBlocks(args, vi) + [CallB(f, vs)]);
      ok := true;
    }

    /** The state is this one with blocks, locals, n temporaries and m labels added. */
    ghost predicate Grown(blocks0: seq<Block>, locals0: seq<Var>, vi: nat, li: nat,
                          bs: seq<Block>, ls: seq<Var>, n: nat, m: nat)
      reads this
    {
      blocks == blocks0 + bs && locals == locals0 + ls && varIndex == vi + n && labelIndex == li + m
    }

    method CompileVarDecl(x: string) returns (ok: bool)
      modifies this`locals
      ensures ok == (x !in Known(old(locals)))
      ensures ok ==> locals == old(locals) + [User(x)]
    {
      var found := FindLocal(x);
      if found {
        return false;
      }
      locals := locals + [User(x)];
      ok := true;
    }

    method CompileAssign(x: string, e: Expr) returns (ok: bool)
      modifies this`blocks, this`locals, this`varIndex
      ensures ok == AcceptS(sigs, Known(old(locals)), valued, Assign(x, e))
      ensures ok ==> Grown(old(blocks), old(locals), old(varIndex), old(labelIndex),
                           StmtBlocks(Assign(x, e), old(varIndex), labelIndex), LocalsS(Assign(x, e), old(varIndex)),
                           TempsS(Assign(x, e)), 0)
    {
      hide AcceptE, ConvValue, ConvBlocks, Temps, Known;
      ok := FindLocal(x);
      if !ok { return; }
      var v;
      ok, v := ConvertNode(e);
      if !ok { return; }
      blocks := blocks + [StoreB(PlainPlace(User(x)), v)];
    }

    method CompileReturn(value: Option<Expr>) returns (ok: bool)
      modifies this`blocks, this`locals, this`varIndex
      ensures ok == AcceptS(sigs, Known(old(locals)), valued, Return(value))
      ensures ok ==> Grown(old(blocks), old(locals), old(varIndex), old(labelIndex),
                           StmtBlocks(Return(value), old(varIndex), labelIndex), LocalsS(Return(value), old(varIndex)),
                           TempsS(Return(value)), 0)
    {
      hide AcceptE, ConvValue, ConvBlocks, Temps, Known;
      if valued != value.Some? {
        return false;
      }
      if value.Some? {
        var v;
        ok, v := ConvertNode(value.value);
        if !ok { return; }
        blocks := blocks + [StoreReturn(v)];
      }
      blocks := blocks + [JmpB(Always, EXIT)];
      ok := true;
    }

    /** The comparison and the two jumps of an if; labels li and li + 1 are already taken. */
    method CompileCondition(st: Stmt, li: nat) returns (ok: bool)
      requires st.If?
      modifies this`blocks, this`locals, this`varIndex
      ensures ok == (AcceptE(sigs, Known(old(locals)), st.left) && AcceptE(sigs, Known(old(locals)), st.right))
      ensures ok ==> var vi := old(varIndex); var vr := vi + Temps(st.left);
                     Added(old(blocks), old(locals), vi,
                           ConvBlocks(st.left, vi) + ConvBlocks(st.right, vr) +
                           [CmpB(ConvValue(st.left, vi), ConvValue(st.right, vr)),
                            JmpB(if st.equal then Eq else Neq, LLabel(li)), JmpB(Always, LLabel(li + 1)), LabelB(LLabel(li))],
                           Temps(st.left) + Temps(st.right))
    {
      hide AcceptE, ConvValue, ConvBlocks, Temps, Known, LLabel, TempList;
      ghost var vi, ls, bs := varIndex, locals, blocks;
      var left, right;
      ok, left := ConvertNode(st.left);
      if !ok { return; }
      KnownGrows(ls, vi, Temps(st.left));
      ok, right := ConvertNode(st.right);
      if !ok { return; }
      TempsJoin(vi, Temps(st.left), Temps(st.right));
      AddJumps(st.equal, li, left, right);
      Regroup(bs, ConvBlocks(st.left, vi), ConvBlocks(st.right, vi + Temps(st.left)),
              [CmpB(left, right), JmpB(if st.equal then Eq else Neq, LLabel(li)), JmpB(Always, LLabel(li + 1)), LabelB(LLabel(li))]);
    }

    method AddJumps(equal: bool, li: nat, left: Value, right: Value)
      modifies this`blocks
      ensures blocks == old(blocks) + [CmpB(left, right), JmpB(if equal then Eq else Neq, LLabel(li)),
                                       JmpB(Always, LLabel(li + 1)), LabelB(LLabel(li))]
    {
      hide LLabel;
      blocks := blocks + [CmpB(left, right)];
      blocks := blocks + [JmpB(if equal then Eq else Neq, LLabel(li))];
      blocks := blocks + [JmpB(Always, LLabel(li + 1))];
      blocks := blocks + [LabelB(LLabel(li))];
    }

    method CompileIf(st: Stmt) returns (ok: bool)
      requires st.If?
      modifies this`blocks, this`locals, this`varIndex, this`labelIndex
      ensures ok == AcceptS(sigs, Known(old(locals)), valued, st)
      ensures ok ==> Grown(old(blocks), old(locals), old(varIndex), old(labelIndex),
                           StmtBlocks(st, old(varIndex), old(labelIndex)), LocalsS(st, old(varIndex)), TempsS(st), Labels(st))
      decreases st, 0
    {
      hide AcceptE, AcceptSs, ConvValue, ConvBlocks, Temps, Known, StmtsBlocks, LocalsSs, LLabel, TempList;
      ghost var vi, ls := varIndex, locals;
      var li := labelIndex;
      labelIndex := labelIndex + 2;
      ok := CompileCondition(st, li);
      if !ok { return; }
      KnownGrows(ls, vi, Temps(st.left) + Temps(st.right));
      ok := PlaceAll(st.body);
      if !ok { return; }
      blocks := blocks + [LabelB(LLabel(li + 1))];
    }

    /** Stores the start value; the store is queued before the value is converted. */
    method LoopStart(x: string, from: Expr) returns (ok: bool)
      modifies this`blocks, this`locals, this`varIndex, this`labelIndex
      ensures ok == AcceptE(sigs, Known(old(locals)) + {x}, from)
      ensures ok ==> Grown(old(blocks), old(locals), old(varIndex), old(labelIndex),
                           ForHead(x, from, old(varIndex), old(labelIndex)),
                           [User(x)] + TempList(old(varIndex), Temps(from)), Temps(from), 1)
    {
      hide AcceptE, ConvValue, ConvBlocks, Temps, Known, LLabel, TempList;
      ghost var ls := locals;
      locals := locals + [User(x)];
      UserKnown(ls, x);
      var at := |blocks|;
      blocks := blocks + [StoreB(PlainPlace(User(x)), Imm(0))];
      var v;
      ok, v := ConvertNode(from);
      if !ok { return; }
      blocks := blocks[at := StoreB(PlainPlace(User(x)), v)];
      blocks := blocks + [LabelB(LLabel(labelIndex))];
      labelIndex := labelIndex + 1;
    }

    /** Increments the index and compares it; again the blocks come before the value's. */
    method LoopEnd(x: string, to: Expr, li: nat) returns (ok: bool)
      modifies this`blocks, this`locals, this`varIndex, this`labelIndex
      ensures ok == AcceptE(sigs, Known(old(locals)), to)
      ensures ok ==> Grown(old(blocks), old(locals), old(varIndex), old(labelIndex),
                           ForTail(x, to, old(varIndex), li, old(labelIndex)),
                           TempList(old(varIndex), Temps(to)), Temps(to), 1)
    {
      hide AcceptE, ConvValue, ConvBlocks, Temps, Known, LLabel, ELabel, TempList;
      blocks := blocks + [StoreB(PlainPlace(User(x)), Op(OpAdd, LocalValue(User(x)), Imm(1)))];
      var at := |blocks|;
      blocks := blocks + [CmpB(LocalValue(User(x)), Imm(0))];
      var v;
      ok, v := ConvertNode(to);
      if !ok { return; }
      blocks := blocks[at := CmpB(LocalValue(User(x)), v)];
      var end := ELabel(labelIndex);
      labelIndex := labelIndex + 1;
      blocks := blocks + [JmpB(Eq, end)];
      blocks := blocks + [JmpB(Always, LLabel(li))];
      blocks := blocks + [LabelB(end)];
    }

    method CompileLoop(st: Stmt) returns (ok: bool)
      requires st.For?
      modifies this`blocks, this`locals, this`varIndex, this`labelIndex
      ensures ok == AcceptS(sigs, Known(old(locals)), valued, st)
      ensures ok ==> Grown(old(blocks), old(locals), old(varIndex), old(labelIndex),
                           StmtBlocks(st, old(varIndex), old(labelIndex)), LocalsS(st, old(varIndex)), TempsS(st), Labels(st))
      decreases st, 0
    {
      hide AcceptE, AcceptSs, Temps, Known, StmtsBlocks, LocalsSs, ForHead, ForTail, TempList, NameSet;
      ghost var vi, ls := varIndex, locals;
      var li := labelIndex;
      ok := LoopStart(st.x, st.from);
      if !ok { return; }
      HeadKnown(ls, st.x, vi, Temps(st.from));
      ghost var ls1, vb := locals, varIndex;
      ok := PlaceAll(st.body);
      if !ok { return; }
      BodyKnown(ls1, st.body, vb);
      ok := LoopEnd(st.x, st.to, li);
    }

    /** One statement. */
    method PlaceNode(st: Stmt) returns (ok: bool)
      modifies this`blocks, this`locals, this`varIndex, this`labelIndex
      ensures ok == AcceptS(sigs, Known(old(locals)), valued, st)
      ensures ok ==> Grown(old(blocks), old(locals), old(varIndex), old(labelIndex),
                           StmtBlocks(st, old(varIndex), old(labelIndex)), LocalsS(st, old(varIndex)), TempsS(st), Labels(st))
      decreases st, 1
    {
      match st
      case Decl(x) => ok := CompileVarDecl(x);
      case Assign(x, e) => ok := CompileAssign(x, e);
      case If(_, _, _, _) => ok := CompileIf(st);
      case For(_, _, _, _) => ok := CompileLoop(st);
      case Return(value) => ok := CompileReturn(value);
      case CallS(f, args) => ok := CompileCall(f, args);
    }

    /** A list of statements, one after the other. */
    method PlaceAll(ss: seq<Stmt>) returns (ok: bool)
      modifies this`blocks, this`locals, this`varIndex, this`labelIndex
      ensures ok == AcceptSs(sigs, Known(old(locals)), valued, ss)
      ensures ok ==> Grown(old(blocks), old(locals), old(varIndex), old(labelIndex),
                           StmtsBlocks(ss, old(varIndex), old(labelIndex)), LocalsSs(ss, old(varIndex)), TempsSs(ss), LabelsSs(ss))
      decreases ss, 0
    {
      hide AcceptS, StmtBlocks, LocalsS, TempsS, Labels, Known, DeclSet;
      ghost var bs, ls, vi, li := blocks, locals, varIndex, labelIndex;
      for i := 0 to |ss|
        invariant AcceptSs(sigs, Known(ls), valued, ss) == AcceptSs(sigs, Known(locals), valued, ss[i..])
        invariant blocks + StmtsBlocks(ss[i..], varIndex, labelIndex) == bs + StmtsBlocks(ss, vi, li)
        invariant locals + LocalsSs(ss[i..], varIndex) == ls + LocalsSs(ss, vi)
        invariant varIndex + TempsSs(ss[i..]) == vi + TempsSs(ss)
        invariant labelIndex + LabelsSs(ss[i..]) == li + LabelsSs(ss)
      {
        assert ss[i..][0] == ss[i] && ss[i..][1..] == ss[i + 1..];
        StmtKnown(locals, ss[i], varIndex);
        ok := PlaceNode(ss[i]);
        if !ok { return; }
      }
      assert ss[|ss|..] == [];
      ok := true;
    }

    /** Puts a local block behind the preamble for every local, one after the other. */
    method AddLocalBlocks(slots: seq<Slot>)
      requires blocks != []
      modifies this`blocks
      ensures blocks == [old(blocks)[0]] + LocalBlocks(slots) + old(blocks)[1..]
    {
      ghost var bs := blocks;
      for i := 0 to |slots|
        invariant blocks == [bs[0]] + LocalBlocks(slots[..i]) + bs[1..]
      {
        blocks := [blocks[0], LocalB(slots[i])] + blocks[1..];
        LocalBlocksSnoc(slots[..i], slots[i]);
        assert slots[..i + 1] == slots[..i] + [slots[i]];
      }
      assert slots[..|slots|] == slots;
    }

    /** The arguments come first: a local and a store for each parameter. */
    method StoreArguments(params: seq<string>)
      modifies this`blocks, this`locals
      ensures blocks == old(blocks) + ArgBlocks(params) && locals == old(locals) + UserVars(params)
    {
      for i := 0 to |params|
        invariant blocks == old(blocks) + ArgBlocks(params)[..i] && locals == old(locals) + UserVars(params)[..i]
      {
        locals := locals + [User(params[i])];
        blocks := blocks + [StoreArg(User(params[i]), i)];
      }
      assert ArgBlocks(params)[..|params|] == ArgBlocks(params);
      assert UserVars(params)[..|params|] == UserVars(params);
    }

    /** A whole function: accepted or not, and the blocks and locals it becomes. */
    method CompileFunc(f: Func) returns (ok: bool)
      requires blocks == [] && locals == [] && varIndex == 0 && labelIndex == 0
      modifies this
      ensures ok == AcceptFunc(sigs, valued, f)
      ensures ok ==> blocks == FuncBlocks(f) && locals == FuncLocals(f)
    {
      hide AcceptSs, StmtsBlocks, LocalsSs, Known, ArgBlocks, LocalBlocks;
      blocks := [Preamble];
      StoreArguments(f.params);
      ParamsKnown(f.params);
      ok := PlaceAll(f.body);
      if !ok { return; }
      ghost var A, S, L := ArgBlocks(f.params), StmtsBlocks(f.body, 0, 0), LocalBlocks(FuncSlots(f));
      assert locals == FuncLocals(f);
      assert blocks[0] == Preamble && blocks[1..] == A + S;
      AddLocalBlocks(IntSlots(locals));
      blocks := blocks + [LabelB(EXIT)];
      blocks := blocks + [Epilogue];
      assert blocks == [Preamble] + (L + (A + (S + [LabelB(EXIT), Epilogue])));
    }
  }
}
