/**
 Every label of a compiled function is placed once: jump targets are unambiguous.
 */
module LabelNames {
  import opened Words
  import opened Machine
  import opened Images
  import opened Values
  import opened Emit
  import opened Nodes
  import opened Compile
  import opened Frames
  import opened FuncCode
  import opened Checks
  import opened Text

  /** The labels of a block list, in order. */
  function BlockLabels(bs: seq<Block>): seq<string> {
    if bs == [] then []
    else (if bs[0].LabelB? then [bs[0].name] else []) + BlockLabels(bs[1..])
  }

  /** The labels of a list of lines, in order. */
  function LineLabels(code: seq<Line>): seq<string> {
    if code == [] then []
    else (if code[0].Label? then [code[0].name] else []) + LineLabels(code[1..])
  }

  lemma {:induction false} BlockLabelsAppend(a: seq<Block>, b: seq<Block>)
    ensures BlockLabels(a + b) == BlockLabels(a) + BlockLabels(b)
  {
    if a == [] {
      assert a + b == b;
    } else {
      assert (a + b)[1..] == a[1..] + b;
      BlockLabelsAppend(a[1..], b);
    }
  }

  lemma {:induction false} NoBlockLabels(bs: seq<Block>)
    requires forall b :: b in bs ==> !b.LabelB?
    ensures BlockLabels(bs) == []
  {
    if bs != [] {
      NoBlockLabels(bs[1..]);
    }
  }

  /** Blocks without labels, then one label. */
  lemma OneLabel(bs: seq<Block>, name: string)
    requires forall b :: b in bs ==> !b.LabelB?
    ensures BlockLabels(bs + [LabelB(name)]) == [name]
  {
    NoBlockLabels(bs);
    BlockLabelsAppend(bs, [LabelB(name)]);
    assert [LabelB(name)][1..] == [];
  }

  lemma {:induction false} LineLabelsAppend(a: seq<Line>, b: seq<Line>)
    ensures LineLabels(a + b) == LineLabels(a) + LineLabels(b)
  {
    if a == [] {
      assert a + b == b;
    } else {
      assert (a + b)[1..] == a[1..] + b;
      LineLabelsAppend(a[1..], b);
    }
  }

  lemma {:induction false} NoLineLabels(code: seq<Instr>)
    ensures LineLabels(Lines(code)) == []
  {
    if code != [] {
      assert Lines(code)[1..] == Lines(code[1..]);
      NoLineLabels(code[1..]);
    }
  }

  /** The distinct numbered labels of [lo, hi). */
  ghost predicate Numbered(xs: seq<string>, lo: nat, hi: nat) {
    && NoDup(xs)
    && forall x | x in xs :: exists n: nat :: lo <= n < hi && (x == LLabel(n) || x == ELabel(n))
  }

  lemma LabelsDiffer(m: nat, n: nat)
    ensures LLabel(m) != ELabel(n) && LLabel(m) != EXIT && ELabel(m) != EXIT
    ensures LLabel(m) == LLabel(n) ==> m == n
    ensures ELabel(m) == ELabel(n) ==> m == n
  {
    assert LLabel(m)[0] == 'L' && ELabel(n)[0] == 'E' && |ELabel(m)| >= 2;
    if LLabel(m) == LLabel(n) {
      assert LLabel(m)[1..] == Dec(m) && LLabel(n)[1..] == Dec(n);
      DecInjective(m, n);
    }
    if ELabel(m) == ELabel(n) {
      assert ELabel(m)[1..] == Dec(m) && ELabel(n)[1..] == Dec(n);
      DecInjective(m, n);
    }
  }

  lemma NumberedConcat(a: seq<string>, b: seq<string>, lo: nat, mid: nat, hi: nat)
    requires lo <= mid <= hi && Numbered(a, lo, mid) && Numbered(b, mid, hi)
    ensures Numbered(a + b, lo, hi)
  {
    forall x | x in a ensures x !in b {
      var m: nat :| lo <= m < mid && (x == LLabel(m) || x == ELabel(m));
      forall y | y in b ensures x != y {
        var n: nat :| mid <= n < hi && (y == LLabel(n) || y == ELabel(n));
        LabelsDiffer(m, n);
        LabelsDiffer(n, m);
      }
    }
    NoDupConcat(a, b);
    forall x | x in a + b ensures exists n: nat :: lo <= n < hi && (x == LLabel(n) || x == ELabel(n)) {
      if x in a {
        var m: nat :| lo <= m < mid && (x == LLabel(m) || x == ELabel(m));
        assert lo <= m < hi;
      } else {
        assert x in b;
        var n: nat :| mid <= n < hi && (x == LLabel(n) || x == ELabel(n));
        assert lo <= n < hi;
      }
    }
  }

  lemma NumberedOne(x: string, n: nat)
    requires x == LLabel(n) || x == ELabel(n)
    ensures Numbered([x], n, n + 1)
  {
  }

  /** Labels in numbering order may be placed in any other order. */
  lemma NumberedSwap(a: seq<string>, b: seq<string>, lo: nat, hi: nat)
    requires Numbered(a + b, lo, hi)
    ensures Numbered(b + a, lo, hi)
  {
    NoDupSplit(a, b);
    forall x | x in b ensures x !in a {
    }
    NoDupConcat(b, a);
    assert forall x :: x in b + a ==> x in a + b;
  }

  lemma {:induction false} ConvLabels(e: Expr, vi: nat)
    ensures BlockLabels(ConvBlocks(e, vi)) == []
    decreases e, 1
  {
    match e
    case Bin(_, l, r) =>
      ConvLabels(l, vi);
      ConvLabels(r, vi + Temps(l));
      BlockLabelsAppend(ConvBlocks(l, vi), ConvBlocks(r, vi + Temps(l)));
    case CallE(f, args) =>
      ConvArgsLabels(args, vi + 1);
      var call := [CallB(f, ConvArgs(args, vi + 1)), StoreResult(Temp(vi))];
      NoBlockLabels(call);
      BlockLabelsAppend(ConvArgsBlocks(args, vi + 1), call);
    case _ =>
  }

  lemma {:induction false} ConvArgsLabels(args: seq<Expr>, vi: nat)
    ensures BlockLabels(ConvArgsBlocks(args, vi)) == []
    decreases args, 0
  {
    if args != [] {
      ConvLabels(args[0], vi);
      ConvArgsLabels(args[1..], vi + Temps(args[0]));
      BlockLabelsAppend(ConvBlocks(args[0], vi), ConvArgsBlocks(args[1..], vi + Temps(args[0])));
    }
  }

  lemma IfLabels(st: Stmt, vi: nat, li: nat)
    requires st.If?
    ensures BlockLabels(StmtBlocks(st, vi, li)) ==
            [LLabel(li)] + BlockLabels(StmtsBlocks(st.body, vi + Temps(st.left) + Temps(st.right), li + 2)) + [LLabel(li + 1)]
  {
    hide ConvBlocks, StmtsBlocks, LLabel, Temps, BlockLabels, ConvValue;
    var vr := vi + Temps(st.left);
    var A, B := ConvBlocks(st.left, vi), ConvBlocks(st.right, vr);
    var j := [CmpB(ConvValue(st.left, vi), ConvValue(st.right, vr)),
              JmpB(if st.equal then Eq else Neq, LLabel(li)), JmpB(Always, LLabel(li + 1)), LabelB(LLabel(li))];
    var S, e := StmtsBlocks(st.body, vr + Temps(st.right), li + 2), [LabelB(LLabel(li + 1))];
    ConvLabels(st.left, vi);
    ConvLabels(st.right, vr);
    BlockLabelsAppend(A, B);
    BlockLabelsAppend(S, e);
    BlockLabelsAppend(j, S + e);
    BlockLabelsAppend(A + B, j + (S + e));
    OneLabel(j[..3], LLabel(li));
    assert j == j[..3] + [LabelB(LLabel(li))];
    OneLabel([], LLabel(li + 1));
    assert e == [] + e;
  }

  lemma ForLabels(st: Stmt, vi: nat, li: nat)
    requires st.For?
    ensures BlockLabels(StmtBlocks(st, vi, li)) ==
            [LLabel(li)] + BlockLabels(StmtsBlocks(st.body, vi + Temps(st.from), li + 1)) +
            [ELabel(li + 1 + LabelsSs(st.body))]
  {
    hide ConvBlocks, StmtsBlocks, LLabel, ELabel, Temps, TempsSs, LabelsSs, BlockLabels;
    var vb := vi + Temps(st.from);
    var vt, end := vb + TempsSs(st.body), li + 1 + LabelsSs(st.body);
    var S := StmtsBlocks(st.body, vb, li + 1);
    HeadLabels(st.x, st.from, vi, li);
    TailLabels(st.x, st.to, vt, li, end);
    BlockLabelsAppend(S, ForTail(st.x, st.to, vt, li, end));
    BlockLabelsAppend(ForHead(st.x, st.from, vi, li), S + ForTail(st.x, st.to, vt, li, end));
  }

  lemma HeadLabels(x: string, from: Expr, vi: nat, li: nat)
    ensures BlockLabels(ForHead(x, from, vi, li)) == [LLabel(li)]
  {
    hide ConvBlocks, LLabel, ConvValue, BlockLabels;
    var s := [StoreB(PlainPlace(User(x)), ConvValue(from, vi))];
    ConvLabels(from, vi);
    NoBlockLabels(s);
    BlockLabelsAppend(s, ConvBlocks(from, vi));
    BlockLabelsAppend(s + ConvBlocks(from, vi), [LabelB(LLabel(li))]);
    OneLabel([], LLabel(li));
    assert [] + [LabelB(LLabel(li))] == [LabelB(LLabel(li))];
  }

  lemma TailLabels(x: string, to: Expr, vi: nat, li: nat, end: nat)
    ensures BlockLabels(ForTail(x, to, vi, li, end)) == [ELabel(end)]
  {
    hide ConvBlocks, LLabel, ELabel, ConvValue, BlockLabels;
    var s := [StoreB(PlainPlace(User(x)), Op(OpAdd, LocalValue(User(x)), Imm(1))),
              CmpB(LocalValue(User(x)), ConvValue(to, vi))];
    var t := [JmpB(Eq, ELabel(end)), JmpB(Always, LLabel(li)), LabelB(ELabel(end))];
    ConvLabels(to, vi);
    BlockLabelsAppend(s, ConvBlocks(to, vi));
    BlockLabelsAppend(s + ConvBlocks(to, vi), t);
    NoBlockLabels(s);
    OneLabel(t[..2], ELabel(end));
    assert t == t[..2] + [LabelB(ELabel(end))];
  }

  lemma PlainLabels(st: Stmt, vi: nat, li: nat)
    requires !st.If? && !st.For?
    ensures BlockLabels(StmtBlocks(st, vi, li)) == []
  {
    hide ConvBlocks, ConvArgsBlocks, ConvValue, ConvArgs, BlockLabels;
    match st
    case Decl(_) => NoBlockLabels([]);
    case Assign(x, e) =>
      var t := [StoreB(PlainPlace(User(x)), ConvValue(e, vi))];
      ConvLabels(e, vi);
      NoBlockLabels(t);
      BlockLabelsAppend(ConvBlocks(e, vi), t);
    case Return(None) => NoBlockLabels([JmpB(Always, EXIT)]);
    case Return(Some(e)) =>
      var t := [StoreReturn(ConvValue(e, vi)), JmpB(Always, EXIT)];
      ConvLabels(e, vi);
      NoBlockLabels(t);
      BlockLabelsAppend(ConvBlocks(e, vi), t);
    case CallS(f, args) =>
      ConvArgsLabels(args, vi);
      NoBlockLabels([CallB(f, ConvArgs(args, vi))]);
      BlockLabelsAppend(ConvArgsBlocks(args, vi), [CallB(f, ConvArgs(args, vi))]);
  }

  /** First label, body, and the other label of the statement behind it. */
  lemma AroundBody(first: string, body: seq<string>, last: string, li: nat, hi: nat)
    requires first == LLabel(li) && li + 2 <= hi
    requires (Numbered(body, li + 2, hi) && last == LLabel(li + 1)) || (Numbered(body, li + 1, hi - 1) && last == ELabel(hi - 1))
    ensures Numbered([first] + body + [last], li, hi)
  {
    hide Numbered, LLabel, ELabel;
    NumberedOne(first, li);
    if last == ELabel(hi - 1) && Numbered(body, li + 1, hi - 1) {
      NumberedOne(last, hi - 1);
      NumberedConcat([first], body, li, li + 1, hi - 1);
      NumberedConcat([first] + body, [last], li, hi - 1, hi);
    } else {
      NumberedOne(last, li + 1);
      NumberedConcat([last], body, li + 1, li + 2, hi);
      NumberedSwap([last], body, li + 1, hi);
      NumberedConcat([first], body + [last], li, li + 1, hi);
      assert [first] + (body + [last]) == [first] + body + [last];
    }
  }

  lemma {:induction false} StmtLabels(st: Stmt, vi: nat, li: nat)
    ensures Numbered(BlockLabels(StmtBlocks(st, vi, li)), li, li + Labels(st))
    decreases st, 1
  {
    hide StmtBlocks, Numbered, StmtsBlocks, BlockLabels, LLabel, ELabel;
    match st
    case If(_, _, _, body) =>
      var vb := vi + Temps(st.left) + Temps(st.right);
      IfLabels(st, vi, li);
      StmtsLabels(body, vb, li + 2);
      AroundBody(LLabel(li), BlockLabels(StmtsBlocks(body, vb, li + 2)), LLabel(li + 1), li, li + Labels(st));
    case For(_, _, _, body) =>
      var vb := vi + Temps(st.from);
      ForLabels(st, vi, li);
      StmtsLabels(body, vb, li + 1);
      AroundBody(LLabel(li), BlockLabels(StmtsBlocks(body, vb, li + 1)), ELabel(li + 1 + LabelsSs(body)), li, li + Labels(st));
    case _ =>
      PlainLabels(st, vi, li);
      NumberedNone(li);
  }

  lemma NumberedNone(li: nat)
    ensures Numbered([], li, li)
  {
  }

  lemma {:induction false} StmtsLabels(ss: seq<Stmt>, vi: nat, li: nat)
    ensures Numbered(BlockLabels(StmtsBlocks(ss, vi, li)), li, li + LabelsSs(ss))
    decreases ss, 0
  {
    hide StmtBlocks, Numbered;
    if ss == [] {
      NumberedNone(li);
    } else {
      var A, B := StmtBlocks(ss[0], vi, li), StmtsBlocks(ss[1..], vi + TempsS(ss[0]), li + Labels(ss[0]));
      StmtLabels(ss[0], vi, li);
      StmtsLabels(ss[1..], vi + TempsS(ss[0]), li + Labels(ss[0]));
      BlockLabelsAppend(A, B);
      NumberedConcat(BlockLabels(A), BlockLabels(B), li, li + Labels(ss[0]), li + LabelsSs(ss));
    }
  }

  function Locals(xs: seq<string>): (r: seq<string>)
    ensures |r| == |xs| && forall i :: 0 <= i < |r| ==> r[i] == "@" + xs[i]
  {
    seq(|xs|, i requires 0 <= i < |xs| => "@" + xs[i])
  }

  lemma LocalsAppend(a: seq<string>, b: seq<string>)
    ensures Locals(a + b) == Locals(a) + Locals(b)
  {
  }

  lemma FirstBlockLabels(o: Options, lay: Layout, bs: seq<Block>)
    requires bs != []
    ensures var head := if bs[0].LabelB? then [bs[0].name] else [];
            && BlockLabels(bs) == head + BlockLabels(bs[1..])
            && LineLabels(EmitBlock(o, lay, bs[0])) == Locals(head)
  {
    hide BlockCode;
    var b := bs[0];
    if b.LabelB? {
      var l := Label("@" + b.name);
      assert [l][1..] == [] && LineLabels([l]) == ["@" + b.name] == Locals([b.name]);
    } else {
      NoLineLabels(BlockCode(o, lay, b));
      assert Locals([]) == [];
    }
  }

  lemma {:induction false} EmittedLabels(o: Options, lay: Layout, bs: seq<Block>)
    ensures LineLabels(EmitBlocks(o, lay, bs)) == Locals(BlockLabels(bs))
  {
    hide BlockCode, EmitBlock, LineLabels, BlockLabels, Locals;
    if bs == [] {
      NoLabels(o, lay, bs);
    } else {
      var head := if bs[0].LabelB? then [bs[0].name] else [];
      FirstBlockLabels(o, lay, bs);
      EmittedLabels(o, lay, bs[1..]);
      LineLabelsAppend(EmitBlock(o, lay, bs[0]), EmitBlocks(o, lay, bs[1..]));
      LocalsAppend(head, BlockLabels(bs[1..]));
    }
  }

  lemma NoLabels(o: Options, lay: Layout, bs: seq<Block>)
    requires bs == []
    ensures LineLabels(EmitBlocks(o, lay, bs)) == Locals(BlockLabels(bs))
  {
  }

  lemma {:induction false} LocalBlocksLabels(slots: seq<Slot>)
    ensures BlockLabels(LocalBlocks(slots)) == []
  {
    if slots != [] {
      LocalBlocksLabels(slots[1..]);
      NoBlockLabels([LocalB(slots[0])]);
      BlockLabelsAppend(LocalBlocks(slots[1..]), [LocalB(slots[0])]);
    }
  }

  // Where the jumps go --------------------------------------------------------------------

  /** Every jump of `bs` goes to the exit label or to a label placed in `all`. */
  predicate JumpsInto(bs: seq<Block>, all: seq<Block>) {
    forall i :: 0 <= i < |bs| && bs[i].JmpB? ==> bs[i].dest == EXIT || LabelB(bs[i].dest) in all
  }

  lemma JumpsConcat(a: seq<Block>, b: seq<Block>, all: seq<Block>)
    requires JumpsInto(a, all) && JumpsInto(b, all)
    ensures JumpsInto(a + b, all)
  {
  }

  lemma JumpsWiden(bs: seq<Block>, all: seq<Block>, more: seq<Block>)
    requires JumpsInto(bs, all) && forall b :: b in all ==> b in more
    ensures JumpsInto(bs, more)
  {
  }

  /** Two closed lists, one after the other. */
  lemma JumpsBoth(a: seq<Block>, b: seq<Block>)
    requires JumpsInto(a, a) && JumpsInto(b, b)
    ensures JumpsInto(a + b, a + b)
  {
    hide JumpsInto;
    JumpsWiden(a, a, a + b);
    JumpsWiden(b, b, a + b);
    JumpsConcat(a, b, a + b);
  }

  lemma {:induction false} ConvJumps(e: Expr, vi: nat)
    ensures JumpsInto(ConvBlocks(e, vi), [])
    decreases e, 1
  {
    hide JumpsInto, ConvValue, ConvArgs;
    match e
    case Bin(_, l, r) =>
      ConvJumps(l, vi);
      ConvJumps(r, vi + Temps(l));
      JumpsConcat(ConvBlocks(l, vi), ConvBlocks(r, vi + Temps(l)), []);
    case CallE(f, args) =>
      ConvArgsJumps(args, vi + 1);
      var call := [CallB(f, ConvArgs(args, vi + 1)), StoreResult(Temp(vi))];
      NoJumps(call);
      JumpsConcat(ConvArgsBlocks(args, vi + 1), call, []);
    case _ => NoJumps([]);
  }

  lemma NoJumps(bs: seq<Block>)
    requires forall b :: b in bs ==> !b.JmpB?
    ensures JumpsInto(bs, [])
  {
  }

  lemma {:induction false} ConvArgsJumps(args: seq<Expr>, vi: nat)
    ensures JumpsInto(ConvArgsBlocks(args, vi), [])
    decreases args, 0
  {
    hide JumpsInto, ConvValue;
    if args == [] {
      NoJumps([]);
    } else {
      ConvJumps(args[0], vi);
      ConvArgsJumps(args[1..], vi + Temps(args[0]));
      JumpsConcat(ConvBlocks(args[0], vi), ConvArgsBlocks(args[1..], vi + Temps(args[0])), []);
    }
  }

  /** Blocks around a body: their own jumps find their labels in front of it or behind it. */
  lemma JumpsAround(head: seq<Block>, inner: seq<Block>, tail: seq<Block>)
    requires JumpsInto(head, head + tail) && JumpsInto(tail, head + tail) && JumpsInto(inner, inner)
    ensures JumpsInto(head + (inner + tail), head + (inner + tail))
  {
    hide JumpsInto;
    var all := head + (inner + tail);
    JumpsWiden(head, head + tail, all);
    JumpsWiden(tail, head + tail, all);
    JumpsWiden(inner, inner, all);
    JumpsConcat(inner, tail, all);
    JumpsConcat(head, inner + tail, all);
  }

  lemma IfJumps(st: Stmt, vi: nat, li: nat)
    requires st.If?
    requires var S := StmtsBlocks(st.body, vi + Temps(st.left) + Temps(st.right), li + 2); JumpsInto(S, S)
    ensures JumpsInto(StmtBlocks(st, vi, li), StmtBlocks(st, vi, li))
  {
    hide ConvBlocks, StmtsBlocks, LLabel, Temps, ConvValue, JumpsInto;
    var vr := vi + Temps(st.left);
    var A, B := ConvBlocks(st.left, vi), ConvBlocks(st.right, vr);
    var j := [CmpB(ConvValue(st.left, vi), ConvValue(st.right, vr)),
              JmpB(if st.equal then Eq else Neq, LLabel(li)), JmpB(Always, LLabel(li + 1)), LabelB(LLabel(li))];
    var S, e := StmtsBlocks(st.body, vr + Temps(st.right), li + 2), [LabelB(LLabel(li + 1))];
    ConvJumps(st.left, vi);
    ConvJumps(st.right, vr);
    JumpsConcat(A, B, []);
    JumpsWiden(A + B, [], A + B);
    IfHead(j, e, LLabel(li), LLabel(li + 1));
    JumpsAround(j, S, e);
    JumpsBoth(A + B, j + (S + e));
  }

  lemma IfHead(j: seq<Block>, e: seq<Block>, yes: string, end: string)
    requires |j| == 4 && !j[0].JmpB? && j[1].JmpB? && j[1].dest == yes && j[2].JmpB? && j[2].dest == end
    requires j[3] == LabelB(yes) && e == [LabelB(end)]
    ensures JumpsInto(j, j + e) && JumpsInto(e, j + e)
  {
    assert (j + e)[3] == LabelB(yes) && (j + e)[4] == LabelB(end);
  }

  lemma ForJumps(st: Stmt, vi: nat, li: nat)
    requires st.For?
    requires var S := StmtsBlocks(st.body, vi + Temps(st.from), li + 1); JumpsInto(S, S)
    ensures JumpsInto(StmtBlocks(st, vi, li), StmtBlocks(st, vi, li))
  {
    hide ConvBlocks, StmtsBlocks, LLabel, ELabel, Temps, TempsSs, LabelsSs, ConvValue, JumpsInto;
    var vb := vi + Temps(st.from);
    var vt, end := vb + TempsSs(st.body), li + 1 + LabelsSs(st.body);
    var H, T := ForHead(st.x, st.from, vi, li), ForTail(st.x, st.to, vt, li, end);
    var a, c := [StoreB(PlainPlace(User(st.x)), ConvValue(st.from, vi))], ConvBlocks(st.from, vi);
    var b := [StoreB(PlainPlace(User(st.x)), Op(OpAdd, LocalValue(User(st.x)), Imm(1))),
              CmpB(LocalValue(User(st.x)), ConvValue(st.to, vt))];
    var d, j := ConvBlocks(st.to, vt), [JmpB(Eq, ELabel(end)), JmpB(Always, LLabel(li)), LabelB(ELabel(end))];
    ConvJumps(st.from, vi);
    ConvJumps(st.to, vt);
    NoJumps(a);
    NoJumps(b);
    NoJumps([LabelB(LLabel(li))]);
    JumpsConcat(a, c, []);
    JumpsConcat(a + c, [LabelB(LLabel(li))], []);
    JumpsWiden(H, [], H + T);
    JumpsConcat(b, d, []);
    JumpsWiden(b + d, [], H + T);
    ForTailJumps(j, H + T, a + c, b + d, LLabel(li), ELabel(end));
    JumpsConcat(b + d, j, H + T);
    JumpsAround(H, StmtsBlocks(st.body, vb, li + 1), T);
  }

  lemma ForTailJumps(j: seq<Block>, all: seq<Block>, a: seq<Block>, b: seq<Block>, top: string, end: string)
    requires j == [JmpB(Eq, end), JmpB(Always, top), LabelB(end)] && all == a + [LabelB(top)] + (b + j)
    ensures JumpsInto(j, all)
  {
    assert all[|a|] == LabelB(top) && all[|a| + 1 + |b| + 2] == LabelB(end);
  }

  lemma PlainJumps(st: Stmt, vi: nat, li: nat)
    requires !st.If? && !st.For?
    ensures JumpsInto(StmtBlocks(st, vi, li), StmtBlocks(st, vi, li))
  {
    hide ConvBlocks, ConvArgsBlocks, ConvValue, ConvArgs, JumpsInto;
    match st
    case Decl(_) => NoJumps([]);
    case Assign(x, e) =>
      var z := [StoreB(PlainPlace(User(x)), ConvValue(e, vi))];
      ConvJumps(e, vi);
      NoJumps(z);
      JumpsConcat(ConvBlocks(e, vi), z, []);
      JumpsWiden(ConvBlocks(e, vi) + z, [], ConvBlocks(e, vi) + z);
    case Return(None) => ExitJump([], [JmpB(Always, EXIT)]);
    case Return(Some(e)) =>
      var z := [StoreReturn(ConvValue(e, vi))] + [JmpB(Always, EXIT)];
      ConvJumps(e, vi);
      ExitJump([StoreReturn(ConvValue(e, vi))], ConvBlocks(e, vi) + z);
      JumpsWiden(ConvBlocks(e, vi), [], ConvBlocks(e, vi) + z);
      JumpsConcat(ConvBlocks(e, vi), z, ConvBlocks(e, vi) + z);
      assert StmtBlocks(st, vi, li) == ConvBlocks(e, vi) + z;
    case CallS(f, args) =>
      var z := [CallB(f, ConvArgs(args, vi))];
      ConvArgsJumps(args, vi);
      NoJumps(z);
      JumpsConcat(ConvArgsBlocks(args, vi), z, []);
      JumpsWiden(ConvArgsBlocks(args, vi) + z, [], ConvArgsBlocks(args, vi) + z);
  }

  lemma ExitJump(bs: seq<Block>, all: seq<Block>)
    requires forall b :: b in bs ==> !b.JmpB?
    ensures JumpsInto(bs + [JmpB(Always, EXIT)], all) && JumpsInto([JmpB(Always, EXIT)], all) && JumpsInto([], all)
  {
  }

  lemma {:induction false} StmtJumps(st: Stmt, vi: nat, li: nat)
    ensures JumpsInto(StmtBlocks(st, vi, li), StmtBlocks(st, vi, li))
    decreases st, 1
  {
    hide StmtBlocks, StmtsBlocks, JumpsInto;
    match st
    case If(_, _, _, body) =>
      StmtsJumps(body, vi + Temps(st.left) + Temps(st.right), li + 2);
      IfJumps(st, vi, li);
    case For(_, _, _, body) =>
      StmtsJumps(body, vi + Temps(st.from), li + 1);
      ForJumps(st, vi, li);
    case _ => PlainJumps(st, vi, li);
  }

  /** Every jump of a statement list goes to the exit label or to a label of the list. */
  lemma {:induction false} StmtsJumps(ss: seq<Stmt>, vi: nat, li: nat)
    ensures JumpsInto(StmtsBlocks(ss, vi, li), StmtsBlocks(ss, vi, li))
    decreases ss, 0
  {
    hide StmtBlocks, JumpsInto;
    if ss == [] {
      NoJumps([]);
    } else {
      StmtJumps(ss[0], vi, li);
      StmtsJumps(ss[1..], vi + TempsS(ss[0]), li + Labels(ss[0]));
      JumpsBoth(StmtBlocks(ss[0], vi, li), StmtsBlocks(ss[1..], vi + TempsS(ss[0]), li + Labels(ss[0])));
    }
  }

  /** The destination of every jump of a function is placed in it, the exit label included. */
  lemma JumpsPlaced(f: Func)
    ensures var bs := ArgBlocks(f.params) + StmtsBlocks(f.body, 0, 0) + [LabelB(EXIT)];
            forall b :: b in bs && b.JmpB? ==> LabelB(b.dest) in bs
  {
    hide StmtsBlocks;
    var S := StmtsBlocks(f.body, 0, 0);
    var bs := ArgBlocks(f.params) + S + [LabelB(EXIT)];
    StmtsJumps(f.body, 0, 0);
    assert bs[|bs| - 1] == LabelB(EXIT);
    forall b | b in bs && b.JmpB? ensures LabelB(b.dest) in bs {
      assert b in S;
      var i :| 0 <= i < |S| && S[i] == b;
      assert S[i].dest == EXIT || LabelB(S[i].dest) in S;
    }
  }

  lemma {:induction false} LabelListed(bs: seq<Block>, name: string)
    requires LabelB(name) in bs
    ensures name in BlockLabels(bs)
  {
    if bs[0] != LabelB(name) {
      LabelListed(bs[1..], name);
    }
  }

  lemma FuncJumps(f: Func)
    ensures forall b :: b in FuncBlocks(f) && b.JmpB? ==> LabelB(b.dest) in FuncBlocks(f)
  {
    hide StmtsBlocks, LocalBlocks, FuncSlots, ArgBlocks;
    var L, A, S := LocalBlocks(FuncSlots(f)), ArgBlocks(f.params), StmtsBlocks(f.body, 0, 0);
    var bs := A + S + [LabelB(EXIT)];
    JumpsPlaced(f);
    LocalBlocksPlain(FuncSlots(f));
    assert FuncBlocks(f) == [Preamble] + L + bs + [Epilogue];
    forall b | b in FuncBlocks(f) && b.JmpB? ensures LabelB(b.dest) in FuncBlocks(f) {
      assert b in bs;
    }
  }

  lemma {:induction false} LocalBlocksPlain(slots: seq<Slot>)
    ensures forall b :: b in LocalBlocks(slots) ==> b.LocalB?
  {
    if slots != [] {
      LocalBlocksPlain(slots[1..]);
    }
  }

  /** The labels of a function are its statements' and the exit label, each once, and every
      jump of the function goes to one of them. */
  lemma FuncLabels(o: Options, f: Func)
    ensures NoDup(LineLabels(FuncLines(o, f)))
    ensures forall l :: l in LineLabels(FuncLines(o, f)) ==> l != "" && l[0] == '@'
    ensures forall b :: b in FuncBlocks(f) && b.JmpB? ==> "@" + b.dest in LineLabels(FuncLines(o, f))
  {
    hide StmtsBlocks, LocalBlocks, EmitBlocks, FuncLayout, FuncSlots, BlockLabels, LineLabels, Numbered;
    var S := StmtsBlocks(f.body, 0, 0);
    FuncBlockLabels(f);
    FuncJumps(f);
    StmtsLabels(f.body, 0, 0);
    ExitDistinct(BlockLabels(S), LabelsSs(f.body));
    EmittedLabels(o, FuncLayout(f), FuncBlocks(f));
    LineLabelsAppend(EmitBlocks(o, FuncLayout(f), FuncBlocks(f)), [Ins(Ret)]);
    RetLabels();
    var xs := BlockLabels(S) + [EXIT];
    forall b | b in FuncBlocks(f) && b.JmpB? ensures "@" + b.dest in Locals(xs) {
      LabelListed(FuncBlocks(f), b.dest);
      var i :| 0 <= i < |xs| && xs[i] == b.dest;
      assert Locals(xs)[i] == "@" + b.dest;
    }
    forall i, j | 0 <= i < j < |xs| ensures Locals(xs)[i] != Locals(xs)[j] {
      assert Locals(xs)[i][1..] == xs[i] && Locals(xs)[j][1..] == xs[j];
    }
  }

  lemma RetLabels()
    ensures LineLabels([Ins(Ret)]) == []
  {
    var l := Ins(Ret);
    assert [l][1..] == [];
  }

  lemma ExitDistinct(xs: seq<string>, n: nat)
    requires Numbered(xs, 0, n)
    ensures NoDup(xs + [EXIT])
  {
    forall x | x in xs ensures x !in [EXIT] {
      var m: nat :| 0 <= m < n && (x == LLabel(m) || x == ELabel(m));
      LabelsDiffer(m, m);
    }
    NoDupConcat(xs, [EXIT]);
  }

  lemma FuncBlockLabels(f: Func)
    ensures BlockLabels(FuncBlocks(f)) == BlockLabels(StmtsBlocks(f.body, 0, 0)) + [EXIT]
  {
    hide StmtsBlocks, LocalBlocks, FuncSlots;
    var L, A, S := LocalBlocks(FuncSlots(f)), ArgBlocks(f.params), StmtsBlocks(f.body, 0, 0);
    var T := [LabelB(EXIT), Epilogue];
    OneLabel([], EXIT);
    NoBlockLabels([Epilogue]);
    BlockLabelsAppend([] + [LabelB(EXIT)], [Epilogue]);
    assert T == [] + [LabelB(EXIT)] + [Epilogue];
    NoBlockLabels([Preamble]);
    BlockLabelsAppend(S, T);
    NoBlockLabels(A);
    BlockLabelsAppend(A, S + T);
    LocalBlocksLabels(FuncSlots(f));
    BlockLabelsAppend(L, A + (S + T));
    BlockLabelsAppend([Preamble], L + (A + (S + T)));
  }
}
