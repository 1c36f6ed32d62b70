/**
 Whole programs: running the compiled code of a function has the effect the
 interpreter gives it, through nested calls, loops, branches, and recursion.
 */
module Simulation {
  import opened Words
  import opened Machine
  import opened Images
  import opened Values
  import opened Emit
  import opened ExprProof
  import opened StoreProof
  import opened Frames
  import opened Nodes
  import opened Compile
  import opened FuncCode
  import opened Interp
  import opened Checks
  import opened SimBase
  import opened SimCode
  import opened Convention
  import opened Traces

  /** A compiled program loaded in memory. */
  datatype World = World(img: Image, marks: seq<Mark>, o: Options, p: Program, env: map<string, u16>)

  /** Function `f`'s lines are loaded at the address its name has. */
  ghost predicate FuncLoaded(g: World, f: Func) {
    && f.name in g.env && g.env[f.name] % 4 == 0
    && g.env[f.name] / 4 <= |g.img.ins|
    && Loaded(FuncLines(g.o, f), g.env[f.name] / 4, g.img, Names(g.env, f.name))
    && MarksAt(g.marks, g.env[f.name] / 4, FuncMarks(g.o, f))
  }

  ghost predicate Linked(g: World) {
    && g.img.Fits() && GoodProgram(g.p)
    && forall f :: f in g.p && FindFunc(g.p, f.name) == Some(f) ==> FuncLoaded(g, f)
  }

  /** The store holds every variable the interpreter knows. */
  ghost predicate Agrees(vars: Vars, w: Store) {
    forall x :: x in vars ==> User(x) in w && w[User(x)] == vars[x]
  }

  /** A function of the world being executed, in step with the interpreter. */
  ghost predicate InStep(g: World, u: Unit, s: State, vars: Vars, w: Store) {
    && Linked(g) && u.img == g.img && u.marks == g.marks && u.o == g.o && u.names.addr == g.env
    && InFrame(u, s, w) && Agrees(vars, w)
  }

  /** `w'` keeps everything of `w` but possibly the temporaries numbered in [lo, hi). */
  ghost predicate OnlyTemps(w: Store, w': Store, lo: nat, hi: nat) {
    forall x | x in w && !(x.Temp? && lo <= x.n < hi) :: x in w' && w'[x] == w[x]
  }

  ghost predicate HasTemps(u: Unit, lo: nat, hi: nat) {
    forall n: nat | lo <= n < hi :: Temp(n) in u.lay
  }

  lemma AgreesKeep(vars: Vars, w: Store, w': Store, lo: nat, hi: nat)
    requires Agrees(vars, w) && OnlyTemps(w, w', lo, hi)
    ensures Agrees(vars, w')
  {
  }

  // The values of converted trees ------------------------------------------------

  lemma {:induction false} ConvDepth(e: Expr, vi: nat)
    ensures Depth(ConvValue(e, vi)) == EDepth(e)
  {
    if e.Bin? {
      ConvDepth(e.left, vi);
      ConvDepth(e.right, vi + Temps(e.left));
    }
  }

  /** A converted value only looks at its own temporaries. */
  lemma {:induction false} AEvalKeep(e: Expr, vi: nat, w: Store, w': Store, lo: nat, hi: nat)
    requires AEval(ConvValue(e, vi), w).Some? && OnlyTemps(w, w', lo, hi)
    requires vi + Temps(e) <= lo || hi <= vi
    ensures AEval(ConvValue(e, vi), w') == AEval(ConvValue(e, vi), w)
  {
    if e.Bin? {
      AEvalKeep(e.left, vi, w, w', lo, hi);
      AEvalKeep(e.right, vi + Temps(e.left), w, w', lo, hi);
    }
  }

  /** Without calls the value of a tree is the interpreter's. */
  lemma {:induction false} PlainValue(p: Program, e: Expr, vars: Vars, room: int, fuel: nat, vi: nat, w: Store)
    requires Temps(e) == 0 && Agrees(vars, w) && EvalE(p, e, vars, room, fuel).Some?
    ensures AEval(ConvValue(e, vi), w) == EvalE(p, e, vars, room, fuel) && ConvBlocks(e, vi) == []
  {
    if e.Bin? {
      PlainValue(p, e.left, vars, room, fuel, vi, w);
      PlainValue(p, e.right, vars, room, fuel, vi + Temps(e.left), w);
    }
  }

  /** After the queued blocks of an expression, its value over the frame is the interpreter's. */
  ghost predicate Converted(g: World, u: Unit, e: Expr, vi: nat, s: State, t: State,
                            vars: Vars, w: Store, w': Store, fuel: nat) {
    && Goes(u, s, t, TraceE(g.p, e, vars, u.Free(), fuel)) && InStep(g, u, t, vars, w') && SameAbove(s.mem, t.mem, u.bp)
    && OnlyTemps(w, w', vi, vi + Temps(e))
    && AEval(ConvValue(e, vi), w') == EvalE(g.p, e, vars, u.Free(), fuel)
  }

  /** The queued blocks of an expression: its calls, inner ones first, left to right. */
  lemma {:induction false} ConvRuns(g: World, u: Unit, e: Expr, vi: nat, k: nat, s: State,
                                    vars: Vars, w: Store, fuel: nat)
    returns (t: State, w': Store)
    requires InStep(g, u, s, vars, w) && At(u, ConvBlocks(e, vi), k) && Stands(s, k)
    requires HasTemps(u, vi, vi + Temps(e))
    requires EvalE(g.p, e, vars, u.Free(), fuel).Some?
    ensures Converted(g, u, e, vi, s, t, vars, w, w', fuel)
    ensures Stands(t, k + Size(u, ConvBlocks(e, vi)))
    decreases 2 * fuel + 1, e, 1
  {
    hide InStep, At, Size, Goes, TraceE, EvalArgs, EvalCall, ConvArgs, ConvArgsBlocks, TempsArgs, HasTemps;
    match e
    case Num(_) =>
      t, w' := s, w;
      LeafRuns(g, u, e, vi, s, vars, w, fuel);
    case Name(_) =>
      t, w' := s, w;
      LeafRuns(g, u, e, vi, s, vars, w, fuel);
    case Bin(_, l, r) =>
      t, w' := BinRuns(g, u, e, vi, k, s, vars, w, fuel);
    case CallE(f, args) =>
      t, w' := CallExprRuns(g, u, e, vi, k, s, vars, w, fuel);
  }

  lemma LeafRuns(g: World, u: Unit, e: Expr, vi: nat, s: State, vars: Vars, w: Store, fuel: nat)
    requires (e.Num? || e.Name?) && InStep(g, u, s, vars, w)
    requires EvalE(g.p, e, vars, u.Free(), fuel).Some?
    ensures Converted(g, u, e, vi, s, s, vars, w, w, fuel) && Size(u, ConvBlocks(e, vi)) == 0
  {
    hide Goes, InFrame, Linked;
    GoesSelf(u, s);
    EmptyBlocks(u);
  }

  lemma BinParts(u: Unit, e: Expr, vi: nat)
    requires e.Bin?
    ensures var mid := vi + Temps(e.left);
            && ConvBlocks(e, vi) == ConvBlocks(e.left, vi) + ConvBlocks(e.right, mid)
            && vi + Temps(e) == mid + Temps(e.right)
            && (HasTemps(u, vi, vi + Temps(e)) ==> HasTemps(u, vi, mid) && HasTemps(u, mid, mid + Temps(e.right)))
  {
  }

  lemma BinValue(p: Program, e: Expr, vars: Vars, room: int, fuel: nat)
    requires e.Bin? && EvalE(p, e, vars, room, fuel).Some?
    ensures EvalE(p, e.left, vars, room, fuel).Some? && EvalE(p, e.right, vars, room, fuel).Some?
    ensures TraceE(p, e, vars, room, fuel) == TraceE(p, e.left, vars, room, fuel) + TraceE(p, e.right, vars, room, fuel)
  {
  }

  lemma ConvertedIs(g: World, u: Unit, e: Expr, vi: nat, s: State, t: State, vars: Vars, w: Store, w': Store, fuel: nat)
    requires Converted(g, u, e, vi, s, t, vars, w, w', fuel)
    ensures InStep(g, u, t, vars, w')
  {
  }

  /** Both operands converted, one after the other. */
  lemma BinJoined(g: World, u: Unit, e: Expr, vi: nat, s: State, s1: State, t: State, vars: Vars, w: Store, w1: Store,
                  w': Store, fuel: nat)
    requires e.Bin? && EvalE(g.p, e, vars, u.Free(), fuel).Some?
    requires Converted(g, u, e.left, vi, s, s1, vars, w, w1, fuel)
    requires Converted(g, u, e.right, vi + Temps(e.left), s1, t, vars, w1, w', fuel)
    ensures Converted(g, u, e, vi, s, t, vars, w, w', fuel)
  {
    hide InStep, Goes, EvalE, TraceE, ConvValue, AEval, Temps, OnlyTemps;
    GoesTrans(u, s, s1, t, TraceE(g.p, e.left, vars, u.Free(), fuel), TraceE(g.p, e.right, vars, u.Free(), fuel));
    OnlyTempsJoin(e, vi, w, w1, w');
    BinValue(g.p, e, vars, u.Free(), fuel);
    BinJoin(g.p, e, vi, vars, w1, w', u.Free(), fuel);
  }

  lemma OnlyTempsJoin(e: Expr, vi: nat, w: Store, w1: Store, w': Store)
    requires e.Bin? && OnlyTemps(w, w1, vi, vi + Temps(e.left))
    requires OnlyTemps(w1, w', vi + Temps(e.left), vi + Temps(e.left) + Temps(e.right))
    ensures OnlyTemps(w, w', vi, vi + Temps(e))
  {
  }

  lemma BinJoin(p: Program, e: Expr, vi: nat, vars: Vars, w1: Store, w': Store, room: int, fuel: nat)
    requires e.Bin? && OnlyTemps(w1, w', vi + Temps(e.left), vi + Temps(e.left) + Temps(e.right))
    requires EvalE(p, e, vars, room, fuel).Some? && EvalE(p, e.left, vars, room, fuel).Some?
    requires AEval(ConvValue(e.left, vi), w1) == EvalE(p, e.left, vars, room, fuel)
    requires AEval(ConvValue(e.right, vi + Temps(e.left)), w') == EvalE(p, e.right, vars, room, fuel)
    ensures AEval(ConvValue(e, vi), w') == EvalE(p, e, vars, room, fuel)
  {
    hide OnlyTemps;
    var mid := vi + Temps(e.left);
    AEvalKeep(e.left, vi, w1, w', mid, mid + Temps(e.right));
  }

  lemma {:induction false} BinRuns(g: World, u: Unit, e: Expr, vi: nat, k: nat, s: State,
                                   vars: Vars, w: Store, fuel: nat)
    returns (t: State, w': Store)
    requires e.Bin?
    requires InStep(g, u, s, vars, w) && At(u, ConvBlocks(e, vi), k) && Stands(s, k)
    requires HasTemps(u, vi, vi + Temps(e))
    requires EvalE(g.p, e, vars, u.Free(), fuel).Some?
    ensures Converted(g, u, e, vi, s, t, vars, w, w', fuel)
    ensures Stands(t, k + Size(u, ConvBlocks(e, vi)))
    decreases 2 * fuel + 1, e, 0
  {
    hide *;
    var mid := vi + Temps(e.left);
    var A, B := ConvBlocks(e.left, vi), ConvBlocks(e.right, mid);
    BinParts(u, e, vi);
    BinValue(g.p, e, vars, u.Free(), fuel);
    AtAppend(u, A, B, k);
    var s1, w1 := ConvRuns(g, u, e.left, vi, k, s, vars, w, fuel);
    ConvertedIs(g, u, e.left, vi, s, s1, vars, w, w1, fuel);
    t, w' := ConvRuns(g, u, e.right, mid, k + Size(u, A), s1, vars, w1, fuel);
    BinJoined(g, u, e, vi, s, s1, t, vars, w, w1, w', fuel);
  }

  /** A call in an expression: its arguments, the call, and r0 into its temporary. */
  lemma {:induction false} CallExprRuns(g: World, u: Unit, e: Expr, vi: nat, k: nat, s: State,
                                        vars: Vars, w: Store, fuel: nat)
    returns (t: State, w': Store)
    requires e.CallE?
    requires InStep(g, u, s, vars, w) && At(u, ConvBlocks(e, vi), k) && Stands(s, k)
    requires HasTemps(u, vi, vi + Temps(e))
    requires EvalE(g.p, e, vars, u.Free(), fuel).Some?
    ensures Converted(g, u, e, vi, s, t, vars, w, w', fuel)
    ensures Stands(t, k + Size(u, ConvBlocks(e, vi)))
    decreases 2 * fuel + 1, e, 0
  {
    hide InFrame, Linked, Loaded, EmitBlocks, Agrees, Goes, TraceCall, At, Size;
    var A := ConvArgsBlocks(e.args, vi + 1) + [CallB(e.f, ConvArgs(e.args, vi + 1))];
    assert ConvBlocks(e, vi) == A + [StoreResult(Temp(vi))];
    AtAppend(u, A, [StoreResult(Temp(vi))], k);
    var s1, w1 := CallRuns(g, u, e.f, e.args, vi + 1, k, s, vars, w, fuel);
    t := StoreResultBlock(u, Temp(vi), k + Size(u, A), s1, w1);
    w' := w1[Temp(vi) := s1.regs.g[0]];
    AgreesKeep(vars, w1, w', vi, vi + 1);
    GoesTrans(u, s, s1, t, TraceCall(g.p, e.f, e.args, vars, u.Free(), fuel), [EvStore(s1.regs.g[0])]);
  }

  /** Arguments and call: r0 holds the callee's value, the frame holds what it held. */
  lemma {:induction false} CallRuns(g: World, u: Unit, f: string, args: seq<Expr>, vi: nat, k: nat, s: State,
                                    vars: Vars, w: Store, fuel: nat)
    returns (t: State, w': Store)
    requires InStep(g, u, s, vars, w) && Stands(s, k)
    requires At(u, ConvArgsBlocks(args, vi) + [CallB(f, ConvArgs(args, vi))], k)
    requires HasTemps(u, vi, vi + TempsArgs(args))
    requires EvalCall(g.p, f, args, vars, u.Free(), fuel).Some?
    ensures Goes(u, s, t, TraceCall(g.p, f, args, vars, u.Free(), fuel))
    ensures InStep(g, u, t, vars, w') && SameAbove(s.mem, t.mem, u.bp)
    ensures Stands(t, k + Size(u, ConvArgsBlocks(args, vi) + [CallB(f, ConvArgs(args, vi))]))
    ensures OnlyTemps(w, w', vi, vi + TempsArgs(args))
    ensures var rv := EvalCall(g.p, f, args, vars, u.Free(), fuel).value; rv.Some? ==> t.regs.g[0] == rv.value
    decreases 2 * fuel + 1, args, 2
  {
    hide InStep, At, Size, Goes, TraceArgs, TraceF;
    var A, B := ConvArgsBlocks(args, vi), [CallB(f, ConvArgs(args, vi))];
    AtAppend(u, A, B, k);
    var s1, w1 := ArgsConvRuns(g, u, args, vi, k, s, vars, w, fuel);
    w' := w1;
    t := CallBlockRuns(g, u, f, args, vi, k + Size(u, A), s1, vars, w1, fuel);
    var vs := EvalArgs(g.p, args, vars, u.Free(), fuel).value;
    GoesTrans(u, s, s1, t, TraceArgs(g.p, args, vars, u.Free(), fuel), [EvCall(f, vs)] + TraceF(g.p, f, vs, u.Free() - 2, fuel));
  }

  lemma ArgValues(p: Program, args: seq<Expr>, vi: nat, vars: Vars, room: int, fuel: nat, w: Store)
    requires args != [] && EvalArgs(p, args, vars, room, fuel).Some?
    requires AEval(ConvValue(args[0], vi), w) == EvalE(p, args[0], vars, room, fuel)
    requires forall i :: 0 <= i < |args| - 1 ==> AEval(ConvArgs(args[1..], vi + Temps(args[0]))[i], w) ==
                                                 Some(EvalArgs(p, args[1..], vars, room, fuel).value[i])
    ensures forall i :: 0 <= i < |args| ==>
              AEval(ConvArgs(args, vi)[i], w) == Some(EvalArgs(p, args, vars, room, fuel).value[i])
  {
    hide AEval, ConvValue, EvalE;
    var vs := EvalArgs(p, args[1..], vars, room, fuel).value;
    forall i | 0 <= i < |args|
      ensures AEval(ConvArgs(args, vi)[i], w) == Some(EvalArgs(p, args, vars, room, fuel).value[i])
    {
      if i > 0 {
        assert ConvArgs(args, vi)[i] == ConvArgs(args[1..], vi + Temps(args[0]))[i - 1];
        assert EvalArgs(p, args, vars, room, fuel).value[i] == vs[i - 1];
      }
    }
  }

  /** After the queued blocks of a list of arguments, every argument's value is the interpreter's. */
  ghost predicate ArgsConverted(g: World, u: Unit, args: seq<Expr>, vi: nat, s: State, t: State,
                                vars: Vars, w: Store, w': Store, fuel: nat) {
    && Goes(u, s, t, TraceArgs(g.p, args, vars, u.Free(), fuel)) && InStep(g, u, t, vars, w') && SameAbove(s.mem, t.mem, u.bp)
    && OnlyTemps(w, w', vi, vi + TempsArgs(args))
    && EvalArgs(g.p, args, vars, u.Free(), fuel).Some?
    && (forall i :: 0 <= i < |args| ==>
          AEval(ConvArgs(args, vi)[i], w') == Some(EvalArgs(g.p, args, vars, u.Free(), fuel).value[i]))
  }

  /** The queued blocks of all arguments. */
  lemma {:induction false} ArgsConvRuns(g: World, u: Unit, args: seq<Expr>, vi: nat, k: nat, s: State,
                                        vars: Vars, w: Store, fuel: nat)
    returns (t: State, w': Store)
    requires InStep(g, u, s, vars, w) && At(u, ConvArgsBlocks(args, vi), k) && Stands(s, k)
    requires HasTemps(u, vi, vi + TempsArgs(args))
    requires EvalArgs(g.p, args, vars, u.Free(), fuel).Some?
    ensures ArgsConverted(g, u, args, vi, s, t, vars, w, w', fuel)
    ensures Stands(t, k + Size(u, ConvArgsBlocks(args, vi)))
    decreases 2 * fuel + 1, args, 1
  {
    hide InStep, Goes, TraceArgs, AEval, ConvValue, ConvBlocks, EvalE, EvalArgs, ConvArgs, ConvArgsBlocks, At, Size,
         ArgsConverted, Converted, HasTemps;
    if args == [] {
      t, w' := s, w;
      NoArgs(g, u, args, vi, s, vars, w, fuel);
    } else {
      var mid := vi + Temps(args[0]);
      var A, B := ConvBlocks(args[0], vi), ConvArgsBlocks(args[1..], mid);
      ArgsShape(u, args, vi);
      AtAppend(u, A, B, k);
      var s1, w1 := FirstArgRuns(g, u, args, vi, k, s, vars, w, fuel);
      t, w' := ArgsConvRuns(g, u, args[1..], mid, k + Size(u, A), s1, vars, w1, fuel);
      ArgsChain(g, u, args, vi, s, s1, t, vars, w, w1, w', fuel);
    }
  }

  lemma NoArgs(g: World, u: Unit, args: seq<Expr>, vi: nat, s: State, vars: Vars, w: Store, fuel: nat)
    requires args == [] && InStep(g, u, s, vars, w)
    ensures ArgsConverted(g, u, args, vi, s, s, vars, w, w, fuel) && Size(u, ConvArgsBlocks(args, vi)) == 0
  {
    GoesSelf(u, s);
    assert EmitBlocks(u.o, u.lay, []) == [];
  }

  lemma ArgsShape(u: Unit, args: seq<Expr>, vi: nat)
    requires args != []
    ensures ConvArgsBlocks(args, vi) == ConvBlocks(args[0], vi) + ConvArgsBlocks(args[1..], vi + Temps(args[0]))
    ensures HasTemps(u, vi, vi + TempsArgs(args)) ==>
              HasTemps(u, vi + Temps(args[0]), vi + Temps(args[0]) + TempsArgs(args[1..]))
  {
  }

  lemma {:induction false} FirstArgRuns(g: World, u: Unit, args: seq<Expr>, vi: nat, k: nat, s: State,
                                        vars: Vars, w: Store, fuel: nat)
    returns (t: State, w': Store)
    requires args != [] && InStep(g, u, s, vars, w) && At(u, ConvBlocks(args[0], vi), k) && Stands(s, k)
    requires HasTemps(u, vi, vi + TempsArgs(args))
    requires EvalArgs(g.p, args, vars, u.Free(), fuel).Some?
    ensures Converted(g, u, args[0], vi, s, t, vars, w, w', fuel)
    ensures Stands(t, k + Size(u, ConvBlocks(args[0], vi)))
    ensures InStep(g, u, t, vars, w') && EvalArgs(g.p, args[1..], vars, u.Free(), fuel).Some?
    decreases 2 * fuel + 1, args, 0
  {
    hide InStep, At, Size, Goes, TraceE, AEval, ConvValue, EvalE, ConvBlocks;
    t, w' := ConvRuns(g, u, args[0], vi, k, s, vars, w, fuel);
  }

  lemma ArgsChain(g: World, u: Unit, args: seq<Expr>, vi: nat, s: State, s1: State, t: State,
                  vars: Vars, w: Store, w1: Store, w': Store, fuel: nat)
    requires args != [] && EvalArgs(g.p, args, vars, u.Free(), fuel).Some?
    requires Converted(g, u, args[0], vi, s, s1, vars, w, w1, fuel)
    requires ArgsConverted(g, u, args[1..], vi + Temps(args[0]), s1, t, vars, w1, w', fuel)
    ensures ArgsConverted(g, u, args, vi, s, t, vars, w, w', fuel)
  {
    hide InStep, Goes, TraceE, AEval, ConvValue, EvalE;
    var mid := vi + Temps(args[0]);
    AEvalKeep(args[0], vi, w1, w', mid, mid + TempsArgs(args[1..]));
    ArgValues(g.p, args, vi, vars, u.Free(), fuel, w');
    GoesTrans(u, s, s1, t, TraceE(g.p, args[0], vars, u.Free(), fuel), TraceArgs(g.p, args[1..], vars, u.Free(), fuel));
  }

  lemma {:induction false} ConvArgsDepth(args: seq<Expr>, vi: nat, i: nat)
    requires i < |args|
    ensures Depth(ConvArgs(args, vi)[i]) <= ArgsDepth(args)
  {
    if i == 0 {
      ConvDepth(args[0], vi);
    } else {
      ConvArgsDepth(args[1..], vi + Temps(args[0]), i - 1);
    }
  }

  lemma {:induction false} MaxDepthBound(vs: seq<Value>, d: nat)
    requires forall i :: 0 <= i < |vs| ==> Depth(vs[i]) <= d
    ensures MaxDepth(vs) <= d
  {
    if vs != [] {
      MaxDepthBound(vs[..|vs| - 1], d);
    }
  }

  /** Arguments in registers, then the call instruction, then the callee. */
  lemma {:induction false} CallBlockRuns(g: World, u: Unit, f: string, args: seq<Expr>, vi: nat, k: nat, s: State,
                                         vars: Vars, w: Store, fuel: nat)
    returns (t: State)
    requires InStep(g, u, s, vars, w) && At(u, [CallB(f, ConvArgs(args, vi))], k) && Stands(s, k)
    requires EvalCall(g.p, f, args, vars, u.Free(), fuel).Some?
    requires forall i :: 0 <= i < |args| ==>
               AEval(ConvArgs(args, vi)[i], w) == Some(EvalArgs(g.p, args, vars, u.Free(), fuel).value[i])
    ensures EvalArgs(g.p, args, vars, u.Free(), fuel).Some?
    ensures var vs := EvalArgs(g.p, args, vars, u.Free(), fuel).value;
            Goes(u, s, t, [EvCall(f, vs)] + TraceF(g.p, f, vs, u.Free() - 2, fuel))
    ensures InStep(g, u, t, vars, w) && SameAbove(s.mem, t.mem, u.bp)
    ensures Stands(t, k + Size(u, [CallB(f, ConvArgs(args, vi))]))
    ensures var rv := EvalCall(g.p, f, args, vars, u.Free(), fuel).value; rv.Some? ==> t.regs.g[0] == rv.value
    decreases 2 * fuel + 1, args, 0
  {
    hide *;
    var vals := CallValues(g.p, f, args, vars, u.Free(), fuel);
    var vs := ConvArgs(args, vi);
    InStepIs(g, u, s, vars, w);
    forall i | 0 <= i < |vs| ensures Depth(vs[i]) <= ArgsDepth(args) {
      ConvArgsDepth(args, vi, i);
    }
    MaxDepthBound(vs, ArgsDepth(args));
    var s1 := PassArgs(u, f, vs, vals, k, s, w);
    var fn := FindFunc(g.p, f).value;
    FoundLoaded(g, fn);
    CallTarget(g, u, fn, s1, w);
    var s2 := CallStep(u, f, g.env[f], vals, k + |EmitArgs(u.o, u.lay, vs)|, s1);
    t := FuncRuns(g, fn, vals, s2, fuel);
    CameBack(u, s, s1, s2, t, vars, w, g, k + |EmitArgs(u.o, u.lay, vs)|,
             [EvCall(f, vals)], TraceF(g.p, f, vals, u.Free() - 2, fuel));
  }

  /** A call that answers: its argument values, its callee, and the stack it has left. */
  lemma CallValues(p: Program, f: string, args: seq<Expr>, vars: Vars, room: int, fuel: nat) returns (vals: seq<u16>)
    requires EvalCall(p, f, args, vars, room, fuel).Some?
    ensures EvalArgs(p, args, vars, room, fuel) == Some(vals) && |vals| == |args| <= 4
    ensures room >= 2 && room >= 2 * ArgsDepth(args) && FindFunc(p, f).Some?
    ensures EvalCall(p, f, args, vars, room, fuel) == CallF(p, f, vals, room - 2, fuel)
  {
    hide EvalArgs, ExecSs;
    vals := EvalArgs(p, args, vars, room, fuel).value;
  }

  lemma InStepIs(g: World, u: Unit, s: State, vars: Vars, w: Store)
    requires InStep(g, u, s, vars, w)
    ensures Linked(g) && u.img == g.img && u.marks == g.marks && u.names.addr == g.env && InFrame(u, s, w) && u.img.Fits()
  {
  }

  lemma CallTarget(g: World, u: Unit, fn: Func, s: State, w: Store)
    requires FuncLoaded(g, fn) && GoodFunc(fn) && InFrame(u, s, w) && u.img == g.img && u.Free() >= 2
    ensures fn.name != "" && fn.name[0] != '@' && fn.name in g.env
    ensures u.img.lim + 2 <= s.regs.sp < 0xffff && s.regs.sp - 2 - g.img.lim == u.Free() - 2
  {
    hide Loaded, FuncLines, Encodes;
  }

  /** The callee has returned to the instruction behind the call. */
  lemma CameBack(u: Unit, s: State, s1: State, s2: State, t: State, vars: Vars, w: Store, g: World, k: nat,
                 a: seq<Event>, b: seq<Event>)
    requires InStep(g, u, s, vars, w) && InFrame(u, s1, w) && SameAbove(s.mem, s1.mem, u.bp) && u.img.lim + 2 <= s1.regs.sp
    requires s2.regs.sp == s1.regs.sp - 2 && s2.regs.bp == s1.regs.bp && s1.regs.sp < 0xffff
    requires Read16(s2.mem, s2.regs.sp) == 4 * (k + 1) && SameOutside(s1.mem, s2.mem, s1.regs.sp - 2, s1.regs.sp)
    requires ReturnsTo(s2, t) && Goes(u, s, s1, []) && Goes(u, s1, s2, a) && Shows(u.img, u.marks, s2, t, b)
    ensures Goes(u, s, t, a + b) && InStep(g, u, t, vars, w) && SameAbove(s.mem, t.mem, u.bp) && Stands(t, k + 1)
  {
    hide Shows, Encodes, Linked, Agrees;
    FrameBack(u, s1, s2, t, w);
    GoesTrans(u, s1, s2, t, a, b);
    GoesOn(u, s, s1, t, a + b);
  }

  lemma FoundLoaded(g: World, fn: Func)
    requires Linked(g) && FindFunc(g.p, fn.name) == Some(fn)
    ensures FuncLoaded(g, fn) && GoodFunc(fn)
  {
    assert fn in g.p;
  }

  /** The argument code of a call block: register i holds argument i, the call comes next. */
  lemma PassArgs(u: Unit, f: string, vs: seq<Value>, vals: seq<u16>, k: nat, s: State, w: Store) returns (t: State)
    requires InFrame(u, s, w) && At(u, [CallB(f, vs)], k) && Stands(s, k)
    requires |vs| == |vals| <= 4 && forall i :: 0 <= i < |vs| ==> AEval(vs[i], w) == Some(vals[i])
    requires 2 * MaxDepth(vs) <= u.Free()
    ensures var n := |EmitArgs(u.o, u.lay, vs)|;
            && Stands(t, k + n) && Size(u, [CallB(f, vs)]) == n + 1
            && k + n < |u.img.ins| && u.img.ins[k + n] == Resolve(u.names, Call(SSym(f)))
            && MarksAt(u.marks, k + n, [CallMark(f, |vs|)])
    ensures Goes(u, s, t, []) && InFrame(u, t, w) && SameAbove(s.mem, t.mem, u.bp)
    ensures forall i :: 0 <= i < |vals| ==> t.regs.g[i] == vals[i]
  {
    hide Exec, RunSeq, EmitArgs, Encodes, At, Size, Loaded, Lines, Takes, MarksAt;
    var code := EmitArgs(u.o, u.lay, vs);
    CallCode(u, f, vs, k);
    var lo := s.regs.sp - 2 * MaxDepth(vs);
    forall i | 0 <= i < |vs| ensures Sound(u.o, i, vs[i]) && Safe(vs[i], CtxOf(u.lay, u.names, s), lo, s.regs.sp) &&
                                     Eval(vs[i], CtxOf(u.lay, u.names, s)) == vals[i] {
      IntSound(u.o, i, vs[i], w);
      IntEval(u, vs[i], s, w, lo);
    }
    t := ArgsCorrect(u.o, u.lay, u.names, vs, s, u.img.lim);
    EncodesBelow(u, w, s.mem, t.mem, lo);
    StraightTakes(u.names, code, NoMark, k, u.img, u.marks, s);
  }

  /** The call instruction pushes the address behind it and shows its arguments. */
  lemma CallStep(u: Unit, f: string, addr: u16, vals: seq<u16>, k: nat, s: State) returns (t: State)
    requires u.img.Fits() && Stands(s, k) && k < |u.img.ins|
    requires u.img.ins[k] == Resolve(u.names, Call(SSym(f)))
    requires f != "" && f[0] != '@' && f in u.names.addr && u.names.addr[f] == addr
    requires u.img.lim + 2 <= s.regs.sp && MarksAt(u.marks, k, [CallMark(f, |vals|)])
    requires |vals| <= 4 && forall i :: 0 <= i < |vals| ==> s.regs.g[i] == vals[i]
    ensures Goes(u, s, t, [EvCall(f, vals)])
    ensures t == State(s.regs.(ip := addr, sp := s.regs.sp - 2), t.mem)
    ensures Read16(t.mem, t.regs.sp) == 4 * (k + 1)
    ensures SameOutside(s.mem, t.mem, s.regs.sp - 2, s.regs.sp)
  {
    hide Exec, Takes;
    t := State(s.regs.(ip := addr, sp := s.regs.sp - 2), Write16(s.mem, s.regs.sp - 2, 4 * k + 4));
    CallExec(addr, s, u.img.lim);
    assert Fetch(u.img, s) == Exec(Call(SImm(addr)), s, u.img.lim);
    assert s.regs.g[..|vals|] == vals;
    assert u.marks[k] == [CallMark(f, |vals|)][0];
    TakesStep(u.img, u.marks, s, t);
  }

  /** Once the callee has returned as the convention says, the caller's frame is intact. */
  lemma FrameBack(u: Unit, s: State, called: State, t: State, w: Store)
    requires InFrame(u, s, w) && u.img.lim + 2 <= s.regs.sp
    requires called.regs.sp == s.regs.sp - 2 && called.regs.bp == s.regs.bp
    requires SameOutside(s.mem, called.mem, s.regs.sp - 2, s.regs.sp)
    requires t.regs.sp == called.regs.sp + 2 && t.regs.bp == called.regs.bp
    requires SameAbove(called.mem, t.mem, called.regs.sp)
    ensures InFrame(u, t, w) && SameAbove(s.mem, t.mem, u.bp)
  {
    assert SameOutside(s.mem, t.mem, 0, s.regs.sp);
    EncodesBelow(u, w, s.mem, t.mem, 0);
  }

  // Functions ------------------------------------------------------------------------

  /** The unit of an activation entered in state `s`. */
  function UnitOf(g: World, f: Func, s: State): Unit
    requires s.regs.sp >= 10
  {
    Unit(g.img, g.marks, g.o, FuncLayout(f), Names(g.env, f.name), 2 * |FuncLocals(f)|, s.regs.sp - 10)
  }

  lemma {:induction false} IntFrameSize(xs: seq<Var>)
    ensures FrameSize(IntSlots(xs)) == 2 * |xs|
  {
    if xs != [] {
      assert IntSlots(xs)[1..] == IntSlots(xs[1..]);
      IntFrameSize(xs[1..]);
    }
  }

  lemma IntSlotsTail(xs: seq<Var>, i: nat)
    requires i <= |xs|
    ensures IntSlots(xs)[i..] == IntSlots(xs[i..])
  {
  }

  lemma IntLayoutAt(xs: seq<Var>, i: nat)
    requires Distinct(IntSlots(xs)) && i < |xs|
    ensures var lay := LayoutOf(IntSlots(xs)); xs[i] in lay && lay[xs[i]] == 2 * (|xs| - i)
  {
    LayoutAt(IntSlots(xs), i);
    IntSlotsTail(xs, i);
    IntFrameSize(xs[i..]);
  }

  lemma IntLayoutDomain(xs: seq<Var>, x: Var) returns (i: nat)
    requires Distinct(IntSlots(xs)) && x in LayoutOf(IntSlots(xs))
    ensures i < |xs| && xs[i] == x && LayoutOf(IntSlots(xs))[x] == 2 * (|xs| - i)
  {
    i := LayoutDomain(IntSlots(xs), x);
    IntLayoutAt(xs, i);
  }

  /** Distinct locals get distinct even offsets inside the frame. */
  lemma IntLayout(xs: seq<Var>)
    requires Distinct(IntSlots(xs))
    ensures var lay := LayoutOf(IntSlots(xs));
            && (forall x :: x in lay ==> 2 <= lay[x] <= 2 * |xs| && lay[x] % 2 == 0)
            && Separate(lay) && (forall x :: x in xs ==> x in lay)
  {
    hide LayoutOf, Distinct, IntSlots;
    var lay := LayoutOf(IntSlots(xs));
    forall x | x in lay ensures 2 <= lay[x] <= 2 * |xs| && lay[x] % 2 == 0 {
      var i := IntLayoutDomain(xs, x);
    }
    forall x, y | x in lay && y in lay && x != y ensures lay[x] != lay[y] {
      var i := IntLayoutDomain(xs, x);
      var j := IntLayoutDomain(xs, y);
    }
    forall x | x in xs ensures x in lay {
      var i :| 0 <= i < |xs| && xs[i] == x;
      IntLayoutAt(xs, i);
    }
  }

  /** The layout of an accepted function gives every local its own even offset in the frame. */
  lemma LayoutGood(f: Func)
    requires GoodFunc(f)
    ensures forall x :: x in FuncLayout(f) ==> 2 <= FuncLayout(f)[x] <= 2 * |FuncLocals(f)| && FuncLayout(f)[x] % 2 == 0
    ensures Separate(FuncLayout(f))
    ensures forall x | x in f.params + UserNamesSs(f.body) :: User(x) in FuncLayout(f)
    ensures forall n: nat | n < TempsSs(f.body) :: Temp(n) in FuncLayout(f)
  {
    hide Separate, Distinct, LayoutOf, GoodFunc, FuncLocals;
    FuncSlotsGood(f);
    IntLayout(FuncLocals(f));
  }

  lemma ArgBlock(u: Unit, x: Var, i: nat, k: nat, s: State, w: Store) returns (t: State)
    requires At(u, [StoreArg(x, i)], k) && Stands(s, k) && i < 4
    requires InFrame(u, s, w) && x in u.lay
    ensures Goes(u, s, t, [EvStore(s.regs.g[i])]) && Stands(t, k + Size(u, [StoreArg(x, i)]))
    ensures InFrame(u, t, w[x := s.regs.g[i]]) && SameAbove(s.mem, t.mem, u.bp)
    ensures forall j :: 0 <= j < 4 ==> t.regs.g[j] == s.regs.g[j]
  {
    hide Exec, RunSeq, EmitStore, At, Size, Goes;
    BlockRoom(u, StoreArg(x, i), k, s);
    t := StoreVarRuns(u, i, x, s, w);
    BlockGoes(u, StoreArg(x, i), k, s, t);
  }

  /** The argument registers end up in the parameters. */
  lemma {:induction false} ArgsStored(u: Unit, params: seq<string>, args: seq<u16>, k: nat, s: State)
    returns (t: State, w: Store)
    requires At(u, ArgBlocks(params), k) && Stands(s, k) && InFrame(u, s, map[])
    requires |params| == |args| <= 4 && forall x | x in params :: User(x) in u.lay
    requires forall i :: 0 <= i < |args| ==> s.regs.g[i] == args[i]
    ensures Goes(u, s, t, ArgEvents(args)) && Stands(t, k + Size(u, ArgBlocks(params)))
    ensures InFrame(u, t, w) && Agrees(ParamVars(params, args), w) && SameAbove(s.mem, t.mem, u.bp)
    ensures forall i :: 0 <= i < 4 ==> t.regs.g[i] == s.regs.g[i]
    decreases |params|
  {
    hide InFrame, At, Size, Goes;
    if params == [] {
      t, w := s, map[];
      GoesSelf(u, s);
      EmptyBlocks(u);
      assert ArgEvents(args) == [];
    } else {
      var n := |params| - 1;
      var A, b := ArgBlocks(params[..n]), StoreArg(User(params[n]), n);
      assert ArgBlocks(params) == A + [b];
      AtAppend(u, A, [b], k);
      var s1, w1 := ArgsStored(u, params[..n], args[..n], k, s);
      t := ArgBlock(u, User(params[n]), n, k + Size(u, A), s1, w1);
      w := w1[User(params[n]) := args[n]];
      GoesTrans(u, s, s1, t, ArgEvents(args[..n]), [EvStore(args[n])]);
      assert ArgEvents(args) == ArgEvents(args[..n]) + [EvStore(args[n])];
    }
  }

  /** `u` is the activation of `f` entered in state `s`, with stack for its frame. */
  ghost predicate Entered(g: World, f: Func, u: Unit, s: State) {
    && g.img.Fits() && GoodFunc(f)
    && 10 <= s.regs.sp < 0xffff && FrameBytes(f) <= s.regs.sp - g.img.lim
    && u == UnitOf(g, f, s)
  }

  lemma UnitOk(g: World, f: Func, u: Unit, s: State)
    requires Entered(g, f, u, s)
    ensures u.Ok() && u.Free() == s.regs.sp - g.img.lim - FrameBytes(f)
    ensures u.img.Fits() && u.img == g.img && FrameBytes(f) <= s.regs.sp - g.img.lim
    ensures u.bp == s.regs.sp - 10 && u.size == FrameSize(FuncSlots(f))
    ensures |f.params| <= 4 && forall x :: x in f.params ==> User(x) in u.lay
  {
    LayoutGood(f);
    IntFrameSize(FuncLocals(f));
    assert forall x :: x in f.params ==> x in f.params + UserNamesSs(f.body);
  }

  lemma EmptyFrame(u: Unit, s: State)
    requires u.Ok() && s.regs.bp == u.bp && s.regs.sp == u.bp - u.size
    ensures InFrame(u, s, map[])
  {
  }

  /** Preamble and locals: the frame is up. */
  lemma FrameRuns(g: World, f: Func, u: Unit, s: State, k: nat) returns (t: State)
    requires Entered(g, f, u, s)
    requires At(u, [Preamble] + LocalBlocks(FuncSlots(f)), k) && Stands(s, k)
    ensures Goes(u, s, t, []) && Stands(t, k + Size(u, [Preamble] + LocalBlocks(FuncSlots(f))))
    ensures InFrame(u, t, map[]) && t.regs.g == s.regs.g
    ensures Saved(s, u.bp, t.mem) && SameAbove(s.mem, t.mem, s.regs.sp)
  {
    hide At, Size, Takes, FuncSlots, LocalBlocks, Entered, Saved, SameAbove, InFrame, Unit.Ok;
    UnitOk(g, f, u, s);
    t := EntryTakes(u, FuncSlots(f), k, s);
    EmptyFrame(u, t);
  }

  /** Preamble, locals and arguments: the frame is up and encodes the parameters. */
  lemma EntryRuns(g: World, f: Func, u: Unit, args: seq<u16>, s: State, k: nat) returns (t: State, w: Store)
    requires Entered(g, f, u, s) && |f.params| == |args|
    requires At(u, [Preamble] + LocalBlocks(FuncSlots(f)) + ArgBlocks(f.params), k) && Stands(s, k)
    requires forall i :: 0 <= i < |args| ==> s.regs.g[i] == args[i]
    ensures Goes(u, s, t, ArgEvents(args))
    ensures Stands(t, k + Size(u, [Preamble] + LocalBlocks(FuncSlots(f)) + ArgBlocks(f.params)))
    ensures InFrame(u, t, w) && Agrees(ParamVars(f.params, args), w)
    ensures Saved(s, u.bp, t.mem) && SameAbove(s.mem, t.mem, s.regs.sp)
  {
    hide At, Size, Goes, ArgEvents, InFrame, FuncSlots, LocalBlocks, ArgBlocks, FuncLayout, ParamVars, Saved, Agrees,
         Entered, GoodFunc, Unit.Ok;
    UnitOk(g, f, u, s);
    var L := [Preamble] + LocalBlocks(FuncSlots(f));
    AtAppend(u, L, ArgBlocks(f.params), k);
    var s1 := FrameRuns(g, f, u, s, k);
    t, w := ArgsStored(u, f.params, args, k + Size(u, L), s1);
    GoesOn(u, s, s1, t, ArgEvents(args));
    SavedKeeps(s, u.bp, s1.mem, t.mem);
  }

  // Statements -----------------------------------------------------------------------

  /** The state after running a statement is the one the interpreter's outcome asks for:
      behind the statement with the variables in step, or at the exit label with the
      returned value in r0; on the way the events have shown. */
  ghost predicate Done(g: World, u: Unit, ex: nat, flow: Option<Flow>, evs: seq<Event>, s: State, t: State, w: Store, end: nat) {
    && Goes(u, s, t, evs) && SameAbove(s.mem, t.mem, u.bp)
    && match flow
       case Some(Normal(vars)) => Stands(t, end) && InStep(g, u, t, vars, w)
       case Some(Returned(v)) => Stands(t, ex) && InFrame(u, t, w) && (v.Some? ==> t.regs.g[0] == v.value)
       case None => false
  }

  ghost predicate Declared(u: Unit, names: set<string>) {
    forall x :: x in names ==> User(x) in u.lay
  }

  /** Everything a statement's code needs to run in step with the interpreter. */
  ghost predicate Ready(g: World, u: Unit, ex: nat, st: Stmt, vi: nat, k: nat, s: State, vars: Vars, w: Store) {
    && InStep(g, u, s, vars, w) && Stands(s, k) && LabelIs(u, EXIT, ex)
    && HasTemps(u, vi, vi + TempsS(st)) && Declared(u, Assigned(st)) && PlainBounds(st)
  }

  lemma DoneAfter(g: World, u: Unit, ex: nat, flow: Option<Flow>, a: seq<Event>, b: seq<Event>, s: State, s1: State, t: State,
                  w: Store, end: nat)
    requires Goes(u, s, s1, a) && SameAbove(s.mem, s1.mem, u.bp) && Done(g, u, ex, flow, b, s1, t, w, end)
    ensures Done(g, u, ex, flow, a + b, s, t, w, end)
  {
    hide Goes, InStep, InFrame;
    GoesTrans(u, s, s1, t, a, b);
  }

  lemma AgreesAssign(g: World, u: Unit, s: State, vars: Vars, w: Store, t: State, x: string, v: u16)
    requires InStep(g, u, s, vars, w) && InFrame(u, t, w[User(x) := v])
    ensures InStep(g, u, t, vars[x := v], w[User(x) := v])
  {
    hide Linked, InFrame;
  }

  lemma {:induction false} AssignRuns(g: World, u: Unit, ex: nat, x: string, e: Expr, vi: nat, k: nat, s: State,
                                      vars: Vars, w: Store, fuel: nat)
    returns (t: State, w': Store)
    requires InStep(g, u, s, vars, w) && Stands(s, k) && HasTemps(u, vi, vi + Temps(e)) && User(x) in u.lay
    requires At(u, ConvBlocks(e, vi) + [StoreB(PlainPlace(User(x)), ConvValue(e, vi))], k)
    requires EvalE(g.p, e, vars, u.Free(), fuel).Some? && 2 * EDepth(e) <= u.Free()
    ensures Done(g, u, ex, Some(Normal(vars[x := EvalE(g.p, e, vars, u.Free(), fuel).value])),
                 TraceE(g.p, e, vars, u.Free(), fuel) + Stores(EvalE(g.p, e, vars, u.Free(), fuel)), s, t, w',
                 k + Size(u, ConvBlocks(e, vi) + [StoreB(PlainPlace(User(x)), ConvValue(e, vi))]))
    decreases 2 * fuel + 1, e, 2
  {
    hide Goes, TraceE, At, Size, InFrame, Linked, ConvBlocks, EvalE, ConvValue, AEval, Agrees;
    var A, b := ConvBlocks(e, vi), StoreB(PlainPlace(User(x)), ConvValue(e, vi));
    AtAppend(u, A, [b], k);
    var s1, w1 := ConvRuns(g, u, e, vi, k, s, vars, w, fuel);
    ConvDepth(e, vi);
    t := StoreBlock(u, User(x), ConvValue(e, vi), k + Size(u, A), s1, w1);
    w' := w1[User(x) := EvalE(g.p, e, vars, u.Free(), fuel).value];
    AgreesAssign(g, u, s1, vars, w1, t, x, EvalE(g.p, e, vars, u.Free(), fuel).value);
    GoesTrans(u, s, s1, t, TraceE(g.p, e, vars, u.Free(), fuel), [EvStore(EvalE(g.p, e, vars, u.Free(), fuel).value)]);
  }

  /** `return e`: the value into r0, then to the exit label. */
  lemma {:induction false} ReturnRuns(g: World, u: Unit, ex: nat, e: Expr, vi: nat, k: nat, s: State,
                                      vars: Vars, w: Store, fuel: nat)
    returns (t: State, w': Store)
    requires InStep(g, u, s, vars, w) && Stands(s, k) && HasTemps(u, vi, vi + Temps(e)) && LabelIs(u, EXIT, ex)
    requires At(u, ConvBlocks(e, vi) + [StoreReturn(ConvValue(e, vi)), JmpB(Always, EXIT)], k)
    requires EvalE(g.p, e, vars, u.Free(), fuel).Some? && 2 * EDepth(e) <= u.Free()
    ensures Done(g, u, ex, Some(Returned(EvalE(g.p, e, vars, u.Free(), fuel))),
                 TraceE(g.p, e, vars, u.Free(), fuel) + [EvReturn(EvalE(g.p, e, vars, u.Free(), fuel).value)], s, t, w', 0)
    decreases 2 * fuel + 1, e, 2
  {
    hide Goes, TraceE, At, Size, InFrame, Linked, ConvBlocks, EvalE, ConvValue, AEval, Agrees, LabelIs;
    var A, c, j := ConvBlocks(e, vi), StoreReturn(ConvValue(e, vi)), JmpB(Always, EXIT);
    AtAppend(u, A, [c, j], k);
    assert [c, j] == [c] + [j];
    AtAppend(u, [c], [j], k + Size(u, A));
    var s1, w1 := ConvRuns(g, u, e, vi, k, s, vars, w, fuel);
    ConvDepth(e, vi);
    var s2 := StoreReturnBlock(u, ConvValue(e, vi), k + Size(u, A), s1, w1);
    t := AlwaysJump(u, EXIT, ex, k + Size(u, A) + Size(u, [c]), s2);
    w' := w1;
    MovedInFrame(u, s2, t, w1);
    var a, b := TraceE(g.p, e, vars, u.Free(), fuel), [EvReturn(EvalE(g.p, e, vars, u.Free(), fuel).value)];
    GoesTrans(u, s, s1, s2, a, b);
    GoesQuiet(u, s, s2, t, a + b);
  }

  /** Both sides of a condition and their comparison. */
  lemma {:induction false} CondRuns(g: World, u: Unit, st: Stmt, l: Expr, r: Expr, vi: nat, k: nat, s: State,
                                    vars: Vars, w: Store, fuel: nat)
    returns (t: State, w': Store)
    requires st.If? && l == st.left && r == st.right
    requires InStep(g, u, s, vars, w) && Stands(s, k) && HasTemps(u, vi, vi + Temps(l) + Temps(r))
    requires At(u, ConvBlocks(l, vi) + ConvBlocks(r, vi + Temps(l)) +
                   [CmpB(ConvValue(l, vi), ConvValue(r, vi + Temps(l)))], k)
    requires EvalE(g.p, l, vars, u.Free(), fuel).Some? && EvalE(g.p, r, vars, u.Free(), fuel).Some?
    requires 2 * EDepth(l) <= u.Free() && 2 * EDepth(r) <= u.Free()
    ensures Goes(u, s, t, TraceE(g.p, l, vars, u.Free(), fuel) + TraceE(g.p, r, vars, u.Free(), fuel))
    ensures InStep(g, u, t, vars, w') && SameAbove(s.mem, t.mem, u.bp)
    ensures Stands(t, k + Size(u, ConvBlocks(l, vi) + ConvBlocks(r, vi + Temps(l)) +
                                  [CmpB(ConvValue(l, vi), ConvValue(r, vi + Temps(l)))]))
    ensures t.regs.cf == (EvalE(g.p, l, vars, u.Free(), fuel) == EvalE(g.p, r, vars, u.Free(), fuel))
    decreases 2 * fuel + 1, st, 0
  {
    hide Goes, TraceE, At, Size, InFrame, Linked, ConvBlocks, EvalE, ConvValue, AEval, Agrees;
    var mid := vi + Temps(l);
    var A, B, c := ConvBlocks(l, vi), ConvBlocks(r, mid), CmpB(ConvValue(l, vi), ConvValue(r, mid));
    AtAppend(u, A + B, [c], k);
    AtAppend(u, A, B, k);
    var s1, w1 := ConvRuns(g, u, l, vi, k, s, vars, w, fuel);
    var s2, w2 := ConvRuns(g, u, r, mid, k + Size(u, A), s1, vars, w1, fuel);
    AEvalKeep(l, vi, w1, w2, mid, mid + Temps(r));
    ConvDepth(l, vi);
    ConvDepth(r, mid);
    t := CmpBlock(u, ConvValue(l, vi), ConvValue(r, mid), k + Size(u, A) + Size(u, B), s2, w2);
    w' := w2;
    var a, b := TraceE(g.p, l, vars, u.Free(), fuel), TraceE(g.p, r, vars, u.Free(), fuel);
    GoesTrans(u, s, s1, s2, a, b);
    GoesQuiet(u, s, s2, t, a + b);
  }

  /** Where the parts of a compiled `if` lie: behind the comparison the two jumps, the
      yes label and body, the no label at the end. */
  lemma IfShape(u: Unit, st: Stmt, vi: nat, li: nat, k: nat) returns (kj: nat, kn: nat, ky: nat, end: nat)
    requires st.If? && At(u, StmtBlocks(st, vi, li), k)
    ensures var vr := vi + Temps(st.left);
            var C := ConvBlocks(st.left, vi) + ConvBlocks(st.right, vr) + [CmpB(ConvValue(st.left, vi), ConvValue(st.right, vr))];
            var j := JmpB(if st.equal then Eq else Neq, LLabel(li));
            && At(u, C, k) && kj == k + Size(u, C)
            && At(u, [j], kj) && kn == kj + Size(u, [j])
            && At(u, [JmpB(Always, LLabel(li + 1))], kn)
            && LabelIs(u, LLabel(li), ky) && LabelIs(u, LLabel(li + 1), end)
            && At(u, StmtsBlocks(st.body, vr + Temps(st.right), li + 2), ky)
            && end == ky + Size(u, StmtsBlocks(st.body, vr + Temps(st.right), li + 2))
            && end == k + Size(u, StmtBlocks(st, vi, li))
  {
    hide At, Size, ConvBlocks, ConvValue, StmtsBlocks, LabelIs;
    var vr := vi + Temps(st.left);
    var C := ConvBlocks(st.left, vi) + ConvBlocks(st.right, vr) + [CmpB(ConvValue(st.left, vi), ConvValue(st.right, vr))];
    var J := [JmpB(if st.equal then Eq else Neq, LLabel(li))];
    var N, Y, E := [JmpB(Always, LLabel(li + 1))], [LabelB(LLabel(li))], [LabelB(LLabel(li + 1))];
    var B := StmtsBlocks(st.body, vr + Temps(st.right), li + 2);
    assert StmtBlocks(st, vi, li) == C + (J + (N + (Y + (B + E))));
    AtAppend(u, C, J + (N + (Y + (B + E))), k);
    kj := k + Size(u, C);
    AtAppend(u, J, N + (Y + (B + E)), kj);
    kn := kj + Size(u, J);
    AtAppend(u, N, Y + (B + E), kn);
    ky := kn + Size(u, N);
    AtAppend(u, Y, B + E, ky);
    LabelAt(u, LLabel(li), ky);
    AtAppend(u, B, E, ky);
    end := ky + Size(u, B);
    LabelAt(u, LLabel(li + 1), end);
  }

  lemma BranchReady(u: Unit, st: Stmt, vi: nat)
    requires st.If? && HasTemps(u, vi, vi + TempsS(st)) && Declared(u, Assigned(st)) && PlainBounds(st)
    ensures HasTemps(u, vi, vi + Temps(st.left) + Temps(st.right))
    ensures var vb := vi + Temps(st.left) + Temps(st.right);
            HasTemps(u, vb, vb + TempsSs(st.body)) && Declared(u, AssignedSs(st.body)) && PlainBoundsSs(st.body)
  {
  }

  lemma {:induction false} IfRuns(g: World, u: Unit, ex: nat, st: Stmt, vi: nat, li: nat, k: nat, s: State,
                                  vars: Vars, w: Store, fuel: nat)
    returns (t: State, w': Store)
    requires st.If? && Ready(g, u, ex, st, vi, k, s, vars, w) && At(u, StmtBlocks(st, vi, li), k)
    requires ExecS(g.p, st, vars, u.Free(), fuel).Some?
    ensures Done(g, u, ex, ExecS(g.p, st, vars, u.Free(), fuel), TraceS(g.p, st, vars, u.Free(), fuel), s, t, w',
                 k + Size(u, StmtBlocks(st, vi, li)))
    decreases 2 * fuel + 1, st, 1
  {
    hide Goes, TraceE, TraceSs, LLabel, HasTemps, Assigned, AssignedSs, PlainBounds, PlainBoundsSs, Temps, TempsS, At,
         Size, InFrame, Linked, ConvBlocks, EvalE, ConvValue, Agrees, StmtBlocks, StmtsBlocks, ExecSs, LabelIs;
    var vr := vi + Temps(st.left);
    BranchReady(u, st, vi);
    var kj, kn, ky, end := IfShape(u, st, vi, li, k);
    var s1, w1 := CondRuns(g, u, st, st.left, st.right, vi, k, s, vars, w, fuel);
    StepFits(g, u, s1, vars, w1);
    var s2 := CondJump(u, st.equal, LLabel(li), ky, kj, s1);
    MovedInFrame(u, s1, s2, w1);
    var a := TraceE(g.p, st.left, vars, u.Free(), fuel) + TraceE(g.p, st.right, vars, u.Free(), fuel);
    var c := [EvFlag(s1.regs.cf == st.equal)];
    if s1.regs.cf == st.equal {
      t, w' := StmtsRuns(g, u, ex, st.body, vr + Temps(st.right), li + 2, ky, s2, vars, w1, fuel);
      var flow, b := ExecSs(g.p, st.body, vars, u.Free(), fuel), TraceSs(g.p, st.body, vars, u.Free(), fuel);
      DoneAfter(g, u, ex, flow, c, b, s1, s2, t, w', end);
      DoneAfter(g, u, ex, flow, a, c + b, s, s1, t, w', end);
    } else {
      t := AlwaysJump(u, LLabel(li + 1), end, kn, s2);
      w' := w1;
      MovedInFrame(u, s2, t, w1);
      GoesQuiet(u, s1, s2, t, c);
      GoesTrans(u, s, s1, t, a, c);
      assert c + [] == c;
    }
  }

  /** A statement list, in order. */
  lemma {:induction false} StmtsRuns(g: World, u: Unit, ex: nat, ss: seq<Stmt>, vi: nat, li: nat, k: nat, s: State,
                                     vars: Vars, w: Store, fuel: nat)
    returns (t: State, w': Store)
    requires InStep(g, u, s, vars, w) && Stands(s, k) && LabelIs(u, EXIT, ex)
    requires HasTemps(u, vi, vi + TempsSs(ss)) && Declared(u, AssignedSs(ss)) && PlainBoundsSs(ss)
    requires At(u, StmtsBlocks(ss, vi, li), k)
    requires ExecSs(g.p, ss, vars, u.Free(), fuel).Some?
    ensures Done(g, u, ex, ExecSs(g.p, ss, vars, u.Free(), fuel), TraceSs(g.p, ss, vars, u.Free(), fuel), s, t, w',
                 k + Size(u, StmtsBlocks(ss, vi, li)))
    decreases 2 * fuel + 1, ss, 0
  {
    hide Goes, TraceS, At, Size, InStep, LabelIs, ExecS, StmtBlocks;
    if ss == [] {
      t, w' := s, w;
      GoesSelf(u, s);
      EmptyBlocks(u);
    } else {
      var A, B := StmtBlocks(ss[0], vi, li), StmtsBlocks(ss[1..], vi + TempsS(ss[0]), li + Labels(ss[0]));
      AtAppend(u, A, B, k);
      t, w' := StmtRuns(g, u, ex, ss[0], vi, li, k, s, vars, w, fuel);
      if ExecS(g.p, ss[0], vars, u.Free(), fuel).value.Normal? {
        var s1 := t;
        var vars1 := ExecS(g.p, ss[0], vars, u.Free(), fuel).value.vars;
        t, w' := StmtsRuns(g, u, ex, ss[1..], vi + TempsS(ss[0]), li + Labels(ss[0]), k + Size(u, A), s1, vars1, w', fuel);
        DoneAfter(g, u, ex, ExecSs(g.p, ss[1..], vars1, u.Free(), fuel), TraceS(g.p, ss[0], vars, u.Free(), fuel),
                  TraceSs(g.p, ss[1..], vars1, u.Free(), fuel), s, s1, t, w', k + Size(u, A) + Size(u, B));
      }
    }
  }

  lemma {:induction false} StmtRuns(g: World, u: Unit, ex: nat, st: Stmt, vi: nat, li: nat, k: nat, s: State,
                                    vars: Vars, w: Store, fuel: nat)
    returns (t: State, w': Store)
    requires Ready(g, u, ex, st, vi, k, s, vars, w) && At(u, StmtBlocks(st, vi, li), k)
    requires ExecS(g.p, st, vars, u.Free(), fuel).Some?
    ensures Done(g, u, ex, ExecS(g.p, st, vars, u.Free(), fuel), TraceS(g.p, st, vars, u.Free(), fuel), s, t, w',
                 k + Size(u, StmtBlocks(st, vi, li)))
    decreases 2 * fuel + 1, st, 4
  {
    hide Goes, TraceE, TraceCall, TraceLoop, TraceSs, At, Size, InStep, LabelIs, EvalE, EvalCall, ConvBlocks,
         ConvValue, ConvArgs, ConvArgsBlocks, ExecSs, ExecLoop, StmtsBlocks, ForHead, ForTail;
    match st
    case Decl(_) =>
      t, w' := s, w;
      GoesSelf(u, s);
      EmptyBlocks(u);
    case Assign(x, e) =>
      t, w' := AssignRuns(g, u, ex, x, e, vi, k, s, vars, w, fuel);
    case If(_, _, _, _) =>
      t, w' := IfRuns(g, u, ex, st, vi, li, k, s, vars, w, fuel);
    case For(_, _, _, _) =>
      t, w' := ForRuns(g, u, ex, st, vi, li, k, s, vars, w, fuel);
    case Return(None) =>
      t := AlwaysJump(u, EXIT, ex, k, s);
      w' := w;
      PlainReturn(g, u, s, t, vars, w);
    case Return(Some(e)) =>
      t, w' := ReturnRuns(g, u, ex, e, vi, k, s, vars, w, fuel);
    case CallS(f, args) =>
      t, w' := CallRuns(g, u, f, args, vi, k, s, vars, w, fuel);
  }

  lemma PlainReturn(g: World, u: Unit, s: State, t: State, vars: Vars, w: Store)
    requires InStep(g, u, s, vars, w) && OnlyMoved(s, t)
    ensures InFrame(u, t, w) && SameAbove(s.mem, t.mem, u.bp)
  {
    hide Linked, Agrees;
    MovedInFrame(u, s, t, w);
  }

  lemma StepFits(g: World, u: Unit, s: State, vars: Vars, w: Store)
    requires InStep(g, u, s, vars, w)
    ensures u.img.Fits()
  {
  }

  /** Where the parts of a compiled loop lie. */
  lemma ForShape(u: Unit, st: Stmt, vi: nat, li: nat, k: nat) returns (kb: nat, kt: nat)
    requires st.For? && At(u, StmtBlocks(st, vi, li), k)
    ensures var vb, vt := vi + Temps(st.from), vi + Temps(st.from) + TempsSs(st.body);
            var B, T := StmtsBlocks(st.body, vb, li + 1), ForTail(st.x, st.to, vt, li, li + 1 + LabelsSs(st.body));
            && At(u, ForHead(st.x, st.from, vi, li), k) && kb == k + Size(u, ForHead(st.x, st.from, vi, li))
            && At(u, B, kb) && kt == kb + Size(u, B) && At(u, T, kt)
            && kt + Size(u, T) == k + Size(u, StmtBlocks(st, vi, li))
  {
    hide At, Size, ForHead, ForTail, StmtsBlocks;
    var vb, vt := vi + Temps(st.from), vi + Temps(st.from) + TempsSs(st.body);
    var H := ForHead(st.x, st.from, vi, li);
    var B, T := StmtsBlocks(st.body, vb, li + 1), ForTail(st.x, st.to, vt, li, li + 1 + LabelsSs(st.body));
    assert StmtBlocks(st, vi, li) == H + (B + T);
    AtAppend(u, H, B + T, k);
    kb := k + Size(u, H);
    AtAppend(u, B, T, kb);
    kt := kb + Size(u, B);
  }

  /** The loop head without calls in the start value: a store and the loop label. */
  lemma HeadShape(u: Unit, x: string, from: Expr, vi: nat, li: nat, k: nat)
    requires ConvBlocks(from, vi) == [] && At(u, ForHead(x, from, vi, li), k)
    ensures var b := StoreB(PlainPlace(User(x)), ConvValue(from, vi));
            && At(u, [b], k) && Size(u, [b]) == Size(u, ForHead(x, from, vi, li))
            && LabelIs(u, LLabel(li), k + Size(u, [b]))
  {
    hide At, Size, ConvBlocks, ConvValue, LabelIs;
    var b, l := StoreB(PlainPlace(User(x)), ConvValue(from, vi)), LabelB(LLabel(li));
    assert ForHead(x, from, vi, li) == [b] + [l];
    AtAppend(u, [b], [l], k);
    LabelAt(u, LLabel(li), k + Size(u, [b]));
  }

  function IncValue(x: string): Value {
    Op(OpAdd, LocalValue(User(x)), Imm(1))
  }

  /** The loop tail without calls in the end value: increment, comparison, two jumps, end label. */
  lemma TailShape(u: Unit, x: string, to: Expr, vi: nat, li: nat, end: nat, k: nat)
    returns (kc: nat, kj: nat, kl: nat, ke: nat)
    requires ConvBlocks(to, vi) == [] && At(u, ForTail(x, to, vi, li, end), k)
    ensures var b, c := StoreB(PlainPlace(User(x)), IncValue(x)), CmpB(LocalValue(User(x)), ConvValue(to, vi));
            var j, a := JmpB(Eq, ELabel(end)), JmpB(Always, LLabel(li));
            && At(u, [b], k) && kc == k + Size(u, [b]) && At(u, [c], kc) && kj == kc + Size(u, [c])
            && At(u, [j], kj) && kl == kj + Size(u, [j]) && At(u, [a], kl)
            && LabelIs(u, ELabel(end), ke) && ke == k + Size(u, ForTail(x, to, vi, li, end))
  {
    hide At, Size, ConvBlocks, ConvValue, LabelIs, ELabel, LLabel;
    var b, c := StoreB(PlainPlace(User(x)), IncValue(x)), CmpB(LocalValue(User(x)), ConvValue(to, vi));
    var j, a, e := JmpB(Eq, ELabel(end)), JmpB(Always, LLabel(li)), LabelB(ELabel(end));
    assert ForTail(x, to, vi, li, end) == [b] + ([c] + ([j] + ([a] + [e])));
    AtAppend(u, [b], [c] + ([j] + ([a] + [e])), k);
    kc := k + Size(u, [b]);
    AtAppend(u, [c], [j] + ([a] + [e]), kc);
    kj := kc + Size(u, [c]);
    AtAppend(u, [j], [a] + [e], kj);
    kl := kj + Size(u, [j]);
    AtAppend(u, [a], [e], kl);
    ke := kl + Size(u, [a]);
    LabelAt(u, ELabel(end), ke);
  }

  lemma IncEval(x: string, vars: Vars, w: Store)
    requires Agrees(vars, w) && x in vars
    ensures AEval(IncValue(x), w) == Some(Wrap(vars[x] as int + 1)) && Depth(IncValue(x)) == 1
    ensures AEval(LocalValue(User(x)), w) == Some(vars[x]) && Depth(LocalValue(User(x))) == 0
  {
    assert AEval(LocalValue(User(x)), w) == Some(vars[x]);
  }

  /** Increment and comparison: the flag says whether the loop is over. */
  lemma StepIndex(g: World, u: Unit, x: string, to: Expr, vi: nat, k: nat, kc: nat, s: State,
                  vars: Vars, w: Store, fuel: nat)
    returns (t: State, w': Store)
    requires InStep(g, u, s, vars, w) && Stands(s, k) && x in vars && User(x) in u.lay && Temps(to) == 0
    requires At(u, [StoreB(PlainPlace(User(x)), IncValue(x))], k)
    requires kc == k + Size(u, [StoreB(PlainPlace(User(x)), IncValue(x))])
    requires At(u, [CmpB(LocalValue(User(x)), ConvValue(to, vi))], kc)
    requires u.Free() >= 2 && 2 * EDepth(to) <= u.Free()
    requires EvalE(g.p, to, vars[x := Wrap(vars[x] as int + 1)], u.Free(), fuel).Some?
    ensures var i := Wrap(vars[x] as int + 1);
            && Goes(u, s, t, [EvStore(i)] + TraceE(g.p, to, vars[x := i], u.Free(), fuel))
            && SameAbove(s.mem, t.mem, u.bp) && InStep(g, u, t, vars[x := i], w')
            && Stands(t, kc + Size(u, [CmpB(LocalValue(User(x)), ConvValue(to, vi))]))
            && t.regs.cf == (i == EvalE(g.p, to, vars[x := i], u.Free(), fuel).value)
  {
    hide Goes, TraceE, At, Size, InFrame, Linked, EvalE, ConvValue, AEval, Agrees, IncValue;
    var i := Wrap(vars[x] as int + 1);
    IncEval(x, vars, w);
    var s1 := StoreBlock(u, User(x), IncValue(x), k, s, w);
    w' := w[User(x) := i];
    AgreesAssign(g, u, s, vars, w, s1, x, i);
    IncEval(x, vars[x := i], w');
    PlainValue(g.p, to, vars[x := i], u.Free(), fuel, vi, w');
    ConvDepth(to, vi);
    t := CmpBlock(u, LocalValue(User(x)), ConvValue(to, vi), kc, s1, w');
    NoTrace(g.p, to, vars[x := i], u.Free(), fuel);
    GoesTrans(u, s, s1, t, [EvStore(i)], []);
  }

  /** The rest of a loop from the top of its body on: as the interpreter's loop, until the
      wrapped-around index meets the end value. */
  lemma {:induction false} LoopRuns(g: World, u: Unit, ex: nat, st: Stmt, vi: nat, li: nat, kb: nat, kt: nat, s: State,
                                    vars: Vars, w: Store, fuel: nat)
    returns (t: State, w': Store)
    requires st.For? && Ready(g, u, ex, st, vi, kb, s, vars, w) && LabelIs(u, LLabel(li), kb)
    requires var vb := vi + Temps(st.from);
             var vt := vb + TempsSs(st.body);
             && At(u, StmtsBlocks(st.body, vb, li + 1), kb) && kt == kb + Size(u, StmtsBlocks(st.body, vb, li + 1))
             && At(u, ForTail(st.x, st.to, vt, li, li + 1 + LabelsSs(st.body)), kt)
    requires ExecLoop(g.p, st, vars, u.Free(), fuel).Some?
    ensures var vt := vi + Temps(st.from) + TempsSs(st.body);
            Done(g, u, ex, ExecLoop(g.p, st, vars, u.Free(), fuel), TraceLoop(g.p, st, vars, u.Free(), fuel), s, t, w',
                 kt + Size(u, ForTail(st.x, st.to, vt, li, li + 1 + LabelsSs(st.body))))
    decreases 2 * fuel + 1, st, 2
  {
    hide Goes, Ready, InStep, Declared, Assigned, PlainBounds, TraceE, TraceSs, At, Size, InFrame, Linked, EvalE,
         ConvValue, ConvBlocks, Agrees, StmtsBlocks, ForTail, ExecSs, LabelIs, HasTemps, LLabel, ELabel, AssignedSs,
         PlainBoundsSs;
    var vb := vi + Temps(st.from);
    var vt := vb + TempsSs(st.body);
    var end := li + 1 + LabelsSs(st.body);
    ReadyParts(g, u, ex, st, vi, kb, s, vars, w);
    BodyReady(u, st, vi);
    t, w' := StmtsRuns(g, u, ex, st.body, vb, li + 1, kb, s, vars, w, fuel);
    var flow := ExecSs(g.p, st.body, vars, u.Free(), fuel).value;
    if flow.Normal? {
      var s1, w1, v1 := t, w', flow.vars;
      NoConv(st.to, vt);
      var kc, kj, kl, ke := TailShape(u, st.x, st.to, vt, li, end, kt);
      var s2, w2 := StepIndex(g, u, st.x, st.to, vt, kt, kc, s1, v1, w1, fuel);
      var i := Wrap(v1[st.x] as int + 1);
      StepFits(g, u, s2, v1[st.x := i], w2);
      var s3 := CondJump(u, true, ELabel(end), ke, kj, s2);
      StillInStep(g, u, s2, s3, v1[st.x := i], w2);
      var a := TraceSs(g.p, st.body, vars, u.Free(), fuel);
      var b := [EvStore(i)] + TraceE(g.p, st.to, v1[st.x := i], u.Free(), fuel);
      var c := [EvFlag(s2.regs.cf)];
      if s2.regs.cf {
        t, w' := s3, w2;
        RoundShows(u, a, b, c, s, s1, s2, s3);
      } else {
        var s4 := AlwaysJump(u, LLabel(li), kb, kl, s3);
        StillInStep(g, u, s3, s4, v1[st.x := i], w2);
        ReadyAgain(g, u, ex, st, vi, kb, s, s4, vars, v1[st.x := i], w, w2);
        GoesQuiet(u, s2, s3, s4, c);
        t, w' := LoopRuns(g, u, ex, st, vi, li, kb, kt, s4, v1[st.x := i], w2, fuel - 1);
        var rest := ExecLoop(g.p, st, v1[st.x := i], u.Free(), fuel - 1);
        var d := TraceLoop(g.p, st, v1[st.x := i], u.Free(), fuel - 1);
        RoundDone(g, u, ex, rest, a, b, c, d, s, s1, s2, s4, t, w', ke);
      }
    }
  }

  lemma ReadyParts(g: World, u: Unit, ex: nat, st: Stmt, vi: nat, k: nat, s: State, vars: Vars, w: Store)
    requires Ready(g, u, ex, st, vi, k, s, vars, w)
    ensures InStep(g, u, s, vars, w) && Stands(s, k) && LabelIs(u, EXIT, ex)
    ensures HasTemps(u, vi, vi + TempsS(st)) && Declared(u, Assigned(st)) && PlainBounds(st)
  {
  }

  lemma ReadyAgain(g: World, u: Unit, ex: nat, st: Stmt, vi: nat, k: nat, s: State, t: State, vars: Vars, vars': Vars,
                   w: Store, w': Store)
    requires Ready(g, u, ex, st, vi, k, s, vars, w) && InStep(g, u, t, vars', w') && Stands(t, k)
    ensures Ready(g, u, ex, st, vi, k, t, vars', w')
  {
  }

  lemma StillInStep(g: World, u: Unit, s: State, t: State, vars: Vars, w: Store)
    requires InStep(g, u, s, vars, w) && OnlyMoved(s, t)
    ensures InStep(g, u, t, vars, w) && SameAbove(s.mem, t.mem, u.bp)
  {
    MovedInFrame(u, s, t, w);
  }

  /** Body, step and test of one trip, then the rest of the loop. */
  lemma RoundDone(g: World, u: Unit, ex: nat, flow: Option<Flow>, a: seq<Event>, b: seq<Event>, c: seq<Event>, d: seq<Event>,
                  s: State, s1: State, s2: State, s4: State, t: State, w: Store, end: nat)
    requires Goes(u, s, s1, a) && Goes(u, s1, s2, b) && Goes(u, s2, s4, c)
    requires SameAbove(s.mem, s1.mem, u.bp) && SameAbove(s1.mem, s2.mem, u.bp) && SameAbove(s2.mem, s4.mem, u.bp)
    requires Done(g, u, ex, flow, d, s4, t, w, end)
    ensures Done(g, u, ex, flow, a + (b + (c + d)), s, t, w, end)
  {
    hide *;
    DoneAfter(g, u, ex, flow, c, d, s2, s4, t, w, end);
    DoneAfter(g, u, ex, flow, b, c + d, s1, s2, t, w, end);
    DoneAfter(g, u, ex, flow, a, b + (c + d), s, s1, t, w, end);
  }

  lemma RoundShows(u: Unit, a: seq<Event>, b: seq<Event>, c: seq<Event>, s: State, s1: State, s2: State, t: State)
    requires Goes(u, s, s1, a) && Goes(u, s1, s2, b) && Goes(u, s2, t, c)
    ensures Goes(u, s, t, a + (b + (c + [])))
  {
    hide *;
    GoesTrans(u, s1, s2, t, b, c);
    GoesTrans(u, s, s1, t, a, b + c);
    assert c + [] == c;
  }

  lemma {:induction false} NoConv(e: Expr, vi: nat)
    requires Temps(e) == 0
    ensures ConvBlocks(e, vi) == []
  {
    if e.Bin? {
      NoConv(e.left, vi);
      NoConv(e.right, vi + Temps(e.left));
    }
  }

  lemma {:induction false} NoTrace(p: Program, e: Expr, vars: Vars, room: int, fuel: nat)
    requires Temps(e) == 0
    ensures TraceE(p, e, vars, room, fuel) == []
  {
    if e.Bin? {
      NoTrace(p, e.left, vars, room, fuel);
      NoTrace(p, e.right, vars, room, fuel);
    }
  }

  lemma BodyReady(u: Unit, st: Stmt, vi: nat)
    requires st.For? && HasTemps(u, vi, vi + TempsS(st)) && Declared(u, Assigned(st)) && PlainBounds(st)
    ensures var vb := vi + Temps(st.from);
            HasTemps(u, vb, vb + TempsSs(st.body)) && Declared(u, AssignedSs(st.body)) && PlainBoundsSs(st.body)
    ensures User(st.x) in u.lay && Temps(st.from) == 0 && Temps(st.to) == 0
  {
    assert st.x in Assigned(st);
  }

  lemma {:induction false} ForRuns(g: World, u: Unit, ex: nat, st: Stmt, vi: nat, li: nat, k: nat, s: State,
                                   vars: Vars, w: Store, fuel: nat)
    returns (t: State, w': Store)
    requires st.For? && Ready(g, u, ex, st, vi, k, s, vars, w) && At(u, StmtBlocks(st, vi, li), k)
    requires ExecS(g.p, st, vars, u.Free(), fuel).Some?
    ensures Done(g, u, ex, ExecS(g.p, st, vars, u.Free(), fuel), TraceS(g.p, st, vars, u.Free(), fuel), s, t, w',
                 k + Size(u, StmtBlocks(st, vi, li)))
    decreases 2 * fuel + 1, st, 3
  {
    hide Goes, TraceE, TraceLoop, At, Size, InFrame, Linked, EvalE, ConvValue, ConvBlocks, Agrees, StmtsBlocks,
         StmtBlocks, ForTail, ForHead, ExecLoop, LabelIs, AEval;
    var kb, kt := ForShape(u, st, vi, li, k);
    BodyReady(u, st, vi);
    NoConv(st.from, vi);
    HeadShape(u, st.x, st.from, vi, li, k);
    PlainValue(g.p, st.from, vars, u.Free(), fuel, vi, w);
    ConvDepth(st.from, vi);
    var v := EvalE(g.p, st.from, vars, u.Free(), fuel).value;
    var s1 := StoreBlock(u, User(st.x), ConvValue(st.from, vi), k, s, w);
    AgreesAssign(g, u, s, vars, w, s1, st.x, v);
    t, w' := LoopRuns(g, u, ex, st, vi, li, kb, kt, s1, vars[st.x := v], w[User(st.x) := v], fuel);
    var b := TraceLoop(g.p, st, vars[st.x := v], u.Free(), fuel);
    DoneAfter(g, u, ex, ExecLoop(g.p, st, vars[st.x := v], u.Free(), fuel), [EvStore(v)], b, s, s1, t, w',
              k + Size(u, StmtBlocks(st, vi, li)));
    NoTrace(g.p, st.from, vars, u.Free(), fuel);
    assert [] + ([EvStore(v)] + b) == [EvStore(v)] + b;
  }

  // Whole functions --------------------------------------------------------------------

  /** Where the parts of a compiled function lie. */
  lemma FuncShape(g: World, f: Func, u: Unit, k: nat) returns (ks: nat, ex: nat)
    requires u.lay == FuncLayout(f) && u.o == g.o && k <= |u.img.ins|
    requires Loaded(FuncLines(g.o, f), k, u.img, u.names) && MarksAt(u.marks, k, FuncMarks(g.o, f))
    ensures var E := [Preamble] + LocalBlocks(FuncSlots(f)) + ArgBlocks(f.params);
            && At(u, E, k) && ks == k + Size(u, E)
            && At(u, StmtsBlocks(f.body, 0, 0), ks) && ex == ks + Size(u, StmtsBlocks(f.body, 0, 0))
            && LabelIs(u, EXIT, ex) && At(u, [Epilogue], ex)
            && Loaded([Ins(Ret)], ex + Size(u, [Epilogue]), u.img, u.names)
            && MarksAt(u.marks, ex + Size(u, [Epilogue]), [NoMark])
  {
    hide Size, StmtsBlocks, LocalBlocks, ArgBlocks, FuncSlots, FuncLayout, LabelIs, Loaded, EmitBlocks, BlocksMarks,
         MarksAt;
    var E := [Preamble] + LocalBlocks(FuncSlots(f)) + ArgBlocks(f.params);
    var S, L, P := StmtsBlocks(f.body, 0, 0), [LabelB(EXIT)], [Epilogue];
    assert FuncBlocks(f) == E + (S + (L + P));
    LoadedAppend(EmitBlocks(u.o, u.lay, FuncBlocks(f)), [Ins(Ret)], k, u.img, u.names);
    MarksAppend(u.marks, k, BlocksMarks(u.o, u.lay, FuncBlocks(f)), [NoMark]);
    BlocksMarksCount(u.o, u.lay, FuncBlocks(f));
    assert At(u, FuncBlocks(f), k);
    AtAppend(u, E, S + (L + P), k);
    ks := k + Size(u, E);
    AtAppend(u, S, L + P, ks);
    ex := ks + Size(u, S);
    AtAppend(u, L, P, ex);
    LabelAt(u, EXIT, ex);
    SizeIs(u, FuncBlocks(f));
  }

  lemma SizeIs(u: Unit, bs: seq<Block>)
    ensures Size(u, bs) == Count(EmitBlocks(u.o, u.lay, bs))
  {
  }

  lemma FuncReady(g: World, f: Func, u: Unit, s: State)
    requires Entered(g, f, u, s)
    ensures HasTemps(u, 0, TempsSs(f.body)) && Declared(u, AssignedSs(f.body)) && PlainBoundsSs(f.body)
  {
    LayoutGood(f);
  }

  /**
   A call of a compiled function: entered with its arguments in r0.. and enough stack,
   the machine comes back to the return address with r4 to r7, bp and sp as they were,
   no byte from the entry sp up changed, and the interpreter's result in r0; on the way it
   shows the events the interpreter's run has, in that order.
   */
  lemma {:induction false} FuncRuns(g: World, f: Func, args: seq<u16>, s: State, fuel: nat) returns (t: State)
    requires Linked(g) && GoodFunc(f) && FuncLoaded(g, f) && FindFunc(g.p, f.name) == Some(f)
    requires s.regs.ip == g.env[f.name] && s.regs.sp < 0xffff && g.img.lim <= s.regs.sp
    requires CallF(g.p, f.name, args, s.regs.sp - g.img.lim, fuel).Some?
    requires forall i :: 0 <= i < |args| && i < 4 ==> s.regs.g[i] == args[i]
    ensures Shows(g.img, g.marks, s, t, TraceF(g.p, f.name, args, s.regs.sp - g.img.lim, fuel)) && ReturnsTo(s, t)
    ensures var rv := CallF(g.p, f.name, args, s.regs.sp - g.img.lim, fuel).value; rv.Some? ==> t.regs.g[0] == rv.value
    decreases 2 * fuel
  {
    hide Shows, MarksAt, FuncMarks, CallF, TraceF, TraceSs, ArgEvents, ParamVars, At, Size, InFrame, StmtsBlocks,
         LocalBlocks, ArgBlocks, FuncSlots, FuncLayout, LabelIs, Loaded, GoodProgram, Agrees, Saved, FuncLines,
         ExecSs, ComesBack, Takes, SameAbove, HasTemps, Declared, FuncLocals, Unit.Ok;
    CallParts(g.p, f, args, s.regs.sp - g.img.lim, fuel);
    var u := UnitOf(g, f, s);
    var k := s.regs.ip / 4;
    UnitOk(g, f, u, s);
    FuncReady(g, f, u, s);
    var ks, ex := FuncShape(g, f, u, k);
    var s1, w1 := EntryRuns(g, f, u, args, s, k);
    var vars := ParamVars(f.params, args);
    var s2, w2 := StmtsRuns(g, u, ex, f.body, 0, 0, ks, s1, vars, w1, fuel - 1);
    var a, b := ArgEvents(args), TraceSs(g.p, f.body, vars, u.Free(), fuel - 1);
    DoneInFrame(g, u, ex, ExecSs(g.p, f.body, vars, u.Free(), fuel - 1), b, s1, s2, w2);
    SavedKeeps(s, u.bp, s1.mem, s2.mem);
    StillAbove(s.mem, s1.mem, s2.mem, s.regs.sp, u.bp);
    WordAbove(s.mem, s2.mem, s.regs.sp);
    t := ExitTakes(u, s, ex, s2);
    TakesGoes(u, s2, t, 7, []);
    GoesTrans(u, s, s1, s2, a, b);
    GoesQuiet(u, s, s2, t, a + b);
  }

  /** What an answered call is made of. */
  lemma CallParts(p: Program, f: Func, args: seq<u16>, room: int, fuel: nat)
    requires CallF(p, f.name, args, room, fuel).Some? && FindFunc(p, f.name) == Some(f)
    ensures fuel > 0 && |args| == |f.params| && FrameBytes(f) <= room
    ensures var vars := ParamVars(f.params, args);
            var o := ExecSs(p, f.body, vars, room - FrameBytes(f), fuel - 1);
            && o.Some? && CallF(p, f.name, args, room, fuel).value == (if o.value.Returned? then o.value.value else None)
            && TraceF(p, f.name, args, room, fuel) == ArgEvents(args) + TraceSs(p, f.body, vars, room - FrameBytes(f), fuel - 1)
  {
    hide ExecSs, TraceSs, FuncLocals;
  }

  lemma StillAbove(m: Memory, n: Memory, r: Memory, sp: int, bp: int)
    requires SameAbove(m, n, sp) && SameAbove(n, r, bp) && bp <= sp
    ensures SameAbove(m, r, sp)
  {
  }

  lemma TakesGoes(u: Unit, s: State, t: State, n: nat, evs: seq<Event>)
    requires Takes(u.img, u.marks, s, t, n, evs)
    ensures Goes(u, s, t, evs)
  {
    hide Takes;
  }

  lemma DoneInFrame(g: World, u: Unit, ex: nat, flow: Option<Flow>, evs: seq<Event>, s: State, t: State, w: Store)
    requires Done(g, u, ex, flow, evs, s, t, w, ex)
    ensures Goes(u, s, t, evs) && Stands(t, ex) && t.regs.bp == u.bp && SameAbove(s.mem, t.mem, u.bp)
    ensures flow.value.Returned? && flow.value.value.Some? ==> t.regs.g[0] == flow.value.value.value
  {
    hide Goes, Agrees, Linked;
  }
}
