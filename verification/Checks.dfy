/**
 What a program must satisfy for its meaning to survive compilation: distinct names
 of locals, assignment to declared locals only, and loop bounds without calls.
 */
module Checks {
  import opened Words
  import opened Values
  import opened Frames
  import opened Nodes
  import opened Compile

  /** The names a statement list declares, in order: declarations and loop indices. */
  function UserNames(st: Stmt): seq<string>
    decreases st, 1
  {
    match st
    case Decl(x) => [x]
    case If(_, _, _, body) => UserNamesSs(body)
    case For(x, _, _, body) => [x] + UserNamesSs(body)
    case _ => []
  }

  function UserNamesSs(ss: seq<Stmt>): seq<string>
    decreases ss, 0
  {
    if ss == [] then [] else UserNames(ss[0]) + UserNamesSs(ss[1..])
  }

  /** The names a statement list assigns. */
  function Assigned(st: Stmt): set<string>
    decreases st, 1
  {
    match st
    case Assign(x, _) => {x}
    case If(_, _, _, body) => AssignedSs(body)
    case For(x, _, _, body) => {x} + AssignedSs(body)
    case _ => {}
  }

  function AssignedSs(ss: seq<Stmt>): set<string>
    decreases ss, 0
  {
    if ss == [] then {} else Assigned(ss[0]) + AssignedSs(ss[1..])
  }

  /** No call in a loop bound, anywhere. */
  predicate PlainBounds(st: Stmt)
    decreases st, 1
  {
    match st
    case If(_, _, _, body) => PlainBoundsSs(body)
    case For(_, from, to, body) => Temps(from) == 0 && Temps(to) == 0 && PlainBoundsSs(body)
    case _ => true
  }

  predicate PlainBoundsSs(ss: seq<Stmt>)
    decreases ss, 0
  {
    ss == [] || (PlainBounds(ss[0]) && PlainBoundsSs(ss[1..]))
  }

  predicate NoDup<T(==)>(s: seq<T>) {
    forall i, j :: 0 <= i < j < |s| ==> s[i] != s[j]
  }

  predicate GoodFunc(f: Func) {
    && NoDup(f.params + UserNamesSs(f.body))
    && (forall x :: x in AssignedSs(f.body) ==> x in f.params + UserNamesSs(f.body))
    && PlainBoundsSs(f.body)
    && |f.params| <= 4
    && f.name != "" && '@' !in f.name
  }

  predicate GoodProgram(p: Program) {
    forall f :: f in p ==> GoodFunc(f)
  }

  // The locals of a function are distinct ------------------------------------------

  /** The locals are the declared names in order, mixed with the temporaries of [vi, hi). */
  ghost predicate Shape(xs: seq<Var>, names: seq<string>, vi: nat, hi: nat) {
    && (forall x :: x in xs ==> if x.Temp? then vi <= x.n < hi else x.name in names)
    && (forall n | n in names :: User(n) in xs)
    && (forall n: nat | vi <= n < hi :: Temp(n) in xs)
    && (NoDup(names) ==> NoDup(xs))
  }

  lemma NoDupConcat<T>(a: seq<T>, b: seq<T>)
    requires NoDup(a) && NoDup(b) && forall x :: x in a ==> x !in b
    ensures NoDup(a + b)
  {
    forall i, j | 0 <= i < j < |a + b| ensures (a + b)[i] != (a + b)[j] {
      if i < |a| && |a| <= j {
        assert (a + b)[i] in a && (a + b)[j] in b;
      }
    }
  }

  lemma NoDupSplit<T>(a: seq<T>, b: seq<T>)
    requires NoDup(a + b)
    ensures NoDup(a) && NoDup(b) && forall x :: x in a ==> x !in b
  {
    forall i, j | 0 <= i < j < |a| ensures a[i] != a[j] {
      assert (a + b)[i] == a[i] && (a + b)[j] == a[j];
    }
    forall i, j | 0 <= i < j < |b| ensures b[i] != b[j] {
      assert (a + b)[|a| + i] == b[i] && (a + b)[|a| + j] == b[j];
    }
    forall i, j | 0 <= i < |a| && 0 <= j < |b| ensures a[i] != b[j] {
      assert (a + b)[i] == a[i] && (a + b)[|a| + j] == b[j];
    }
  }

  lemma ShapeConcat(a: seq<Var>, na: seq<string>, lo: nat, mid: nat, b: seq<Var>, nb: seq<string>, hi: nat)
    requires Shape(a, na, lo, mid) && Shape(b, nb, mid, hi) && lo <= mid <= hi
    ensures Shape(a + b, na + nb, lo, hi)
  {
    if NoDup(na + nb) {
      NoDupSplit(na, nb);
      forall x | x in a ensures x !in b {
        if x.User? {
          assert x.name in na && x.name !in nb;
        }
      }
      NoDupConcat(a, b);
    }
    forall n | n in na + nb ensures User(n) in a + b {
      assert n in na || n in nb;
    }
    forall n: nat | lo <= n < hi ensures Temp(n) in a + b {
      if n < mid { assert Temp(n) in a; } else { assert Temp(n) in b; }
    }
  }

  lemma ShapeTemps(vi: nat, n: nat)
    ensures Shape(TempList(vi, n), [], vi, vi + n)
  {
    var xs := TempList(vi, n);
    forall k: nat | vi <= k < vi + n ensures Temp(k) in xs {
      assert xs[k - vi] == Temp(k);
    }
  }

  lemma ShapeUser(x: string, vi: nat)
    ensures Shape([User(x)], [x], vi, vi)
  {
  }

  lemma ShapePrefix(temps: nat, xs: seq<Var>, names: seq<string>, vi: nat, hi: nat)
    requires Shape(xs, names, vi + temps, hi) && vi + temps <= hi
    ensures Shape(TempList(vi, temps) + xs, names, vi, hi)
  {
    hide Shape;
    ShapeTemps(vi, temps);
    ShapeConcat(TempList(vi, temps), [], vi, vi + temps, xs, names, hi);
    assert [] + names == names;
  }

  lemma ShapeSuffix(xs: seq<Var>, names: seq<string>, vi: nat, mid: nat, temps: nat)
    requires Shape(xs, names, vi, mid) && vi <= mid
    ensures Shape(xs + TempList(mid, temps), names, vi, mid + temps)
  {
    hide Shape;
    ShapeTemps(mid, temps);
    ShapeConcat(xs, names, vi, mid, TempList(mid, temps), [], mid + temps);
    assert names + [] == names;
  }

  lemma {:induction false} ShapeS(st: Stmt, vi: nat)
    ensures Shape(LocalsS(st, vi), UserNames(st), vi, vi + TempsS(st))
    decreases st, 1
  {
    hide Shape;
    match st
    case Decl(x) => ShapeUser(x, vi);
    case If(_, l, r, body) =>
      ShapeSs(body, vi + Temps(l) + Temps(r));
      ShapePrefix(Temps(l) + Temps(r), LocalsSs(body, vi + Temps(l) + Temps(r)), UserNamesSs(body), vi, vi + TempsS(st));
    case For(x, from, to, body) => ShapeFor(st, vi);
    case _ => ShapeTemps(vi, TempsS(st));
  }

  lemma {:induction false} ShapeFor(st: Stmt, vi: nat)
    requires st.For?
    ensures Shape(LocalsS(st, vi), UserNames(st), vi, vi + TempsS(st))
    decreases st, 0
  {
    hide Shape, TempList, LocalsSs, UserNamesSs, TempsSs, Temps;
    var vb := vi + Temps(st.from);
    var vt := vb + TempsSs(st.body);
    var inner := LocalsSs(st.body, vb);
    ShapeSs(st.body, vb);
    ShapeSuffix(inner, UserNamesSs(st.body), vb, vt, Temps(st.to));
    ShapePrefix(Temps(st.from), inner + TempList(vt, Temps(st.to)), UserNamesSs(st.body), vi, vt + Temps(st.to));
    ShapeUser(st.x, vi);
    ShapeConcat([User(st.x)], [st.x], vi, vi, TempList(vi, Temps(st.from)) + (inner + TempList(vt, Temps(st.to))),
                UserNamesSs(st.body), vt + Temps(st.to));
    assert [User(st.x)] + (TempList(vi, Temps(st.from)) + (inner + TempList(vt, Temps(st.to)))) == LocalsS(st, vi);
  }

  lemma ListParts(ss: seq<Stmt>, vi: nat)
    requires ss != []
    ensures var mid := vi + TempsS(ss[0]);
            && LocalsSs(ss, vi) == LocalsS(ss[0], vi) + LocalsSs(ss[1..], mid)
            && UserNamesSs(ss) == UserNames(ss[0]) + UserNamesSs(ss[1..])
            && vi + TempsSs(ss) == mid + TempsSs(ss[1..])
  {
    hide LocalsS, UserNames, TempsS;
  }

  lemma ShapeNothing(vi: nat)
    ensures Shape(LocalsSs([], vi), UserNamesSs([]), vi, vi + TempsSs([]))
  {
  }

  lemma {:induction false} ShapeSs(ss: seq<Stmt>, vi: nat)
    ensures Shape(LocalsSs(ss, vi), UserNamesSs(ss), vi, vi + TempsSs(ss))
    decreases ss, 0
  {
    hide *;
    if ss == [] {
      ShapeNothing(vi);
    } else {
      var mid := vi + TempsS(ss[0]);
      ListParts(ss, vi);
      ShapeS(ss[0], vi);
      ShapeSs(ss[1..], mid);
      ShapeConcat(LocalsS(ss[0], vi), UserNames(ss[0]), vi, mid, LocalsSs(ss[1..], mid), UserNamesSs(ss[1..]),
                  mid + TempsSs(ss[1..]));
    }
  }

  lemma ShapeParams(xs: seq<string>)
    ensures Shape(UserVars(xs), xs, 0, 0)
  {
    forall n | n in xs ensures User(n) in UserVars(xs) {
      var i :| 0 <= i < |xs| && xs[i] == n;
      assert UserVars(xs)[i] == User(n);
    }
  }

  /** The frame of an accepted function has a slot for every name and temporary it uses,
      and no slot twice. */
  lemma FuncSlotsGood(f: Func)
    requires GoodFunc(f)
    ensures Distinct(FuncSlots(f))
    ensures forall x | x in f.params + UserNamesSs(f.body) :: User(x) in FuncLocals(f)
    ensures forall n: nat | n < TempsSs(f.body) :: Temp(n) in FuncLocals(f)
  {
    var names := UserNamesSs(f.body);
    ShapeParams(f.params);
    ShapeSs(f.body, 0);
    ShapeConcat(UserVars(f.params), f.params, 0, 0, LocalsSs(f.body, 0), names, TempsSs(f.body));
  }
}
