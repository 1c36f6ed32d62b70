/**
 The values the compiler hands to the emitter, their meaning over a stack frame,
 and the conditions under which that meaning is stable.
 */
module Values {
  import opened Words
  import opened Machine
  import opened Images
  import opened Text

  /** A local variable: one the program names, or the n-th temporary holding a call result. */
  datatype Var = User(name: string) | Temp(n: nat)

  datatype BinOp = OpAdd | OpSub | OpMul

  datatype Value =
    | Imm(n: int)
    | Local(x: Var, offset: int, deref: bool, decay: bool)
    | Global(name: string, decay: bool)
    | Str(id: nat)
    | Op(op: BinOp, left: Value, right: Value)
    | AddrOf(x: Var)
    | Index(base: Value, index: Value, elemSize: int, viaPointer: bool)

  /** How far below bp each local starts. */
  type Layout = map<Var, int>

  function Off(lay: Layout, x: Var): int {
    if x in lay then lay[x] else 0
  }

  function GlobalSym(name: string): string {
    "_G_" + name
  }

  function StringSym(id: nat): string {
    "_S_" + Dec(id)
  }

  /** What a value is evaluated against. */
  datatype Ctx = Ctx(lay: Layout, names: Names, bp: u16, mem: Memory) {
    function Sym(name: string): u16 {
      if name in names.addr then names.addr[name] else 0
    }

    function Rd(a: u16): u16 {
      if a < 0xffff then Read16(mem, a) else 0
    }
  }

  function BinArith(op: BinOp, x: int, y: int): int {
    match op
    case OpAdd => x + y
    case OpSub => x - y
    case OpMul => x * y
  }

  /** The address of a local, of a field behind a local pointer, or of a global. */
  function AddrEval(v: Value, c: Ctx): u16 {
    match v
    case Local(x, offset, deref, _) =>
      if deref then Wrap(c.Rd(Wrap(c.bp - Off(c.lay, x))) + offset)
      else Wrap(c.bp - (Off(c.lay, x) - offset))
    case Global(name, _) => c.Sym(GlobalSym(name))
    case _ => 0
  }

  /** The 16-bit value of a value tree. */
  function Eval(v: Value, c: Ctx): u16
    decreases v, 1
  {
    match v
    case Imm(n) => Wrap(n)
    case Local(_, _, _, decay) => if decay then AddrEval(v, c) else c.Rd(AddrEval(v, c))
    case Global(_, decay) => if decay then AddrEval(v, c) else c.Rd(AddrEval(v, c))
    case Str(id) => c.Sym(StringSym(id))
    case Op(op, l, r) => Wrap(BinArith(op, Eval(l, c), Eval(r, c)))
    case AddrOf(x) => Wrap(c.bp - Off(c.lay, x))
    case Index(b, i, _, _) =>
      var word := c.Rd(IndexAddr(v, c));
      if v.elemSize == 1 then Lo(word) else word
  }

  /** The address an index value reads. */
  function IndexAddr(v: Value, c: Ctx): u16
    requires v.Index?
    decreases v, 0
  {
    var scaled := Wrap(Eval(v.index, c) * Wrap(v.elemSize));
    Wrap((if v.viaPointer then Eval(v.base, c) else AddrEval(v.base, c)) + scaled)
  }

  /** Both bytes at `a` exist and lie outside [lo, hi). */
  predicate Clear(a: u16, lo: int, hi: int) {
    a < 0xffff && (a + 2 <= lo || hi <= a)
  }

  /** The address computation reads nothing in [lo, hi) and finds its symbol. */
  predicate AddrSafe(v: Value, c: Ctx, lo: int, hi: int) {
    match v
    case Local(x, _, deref, _) => deref ==> Clear(Wrap(c.bp - Off(c.lay, x)), lo, hi)
    case Global(name, _) => GlobalSym(name) in c.names.addr
    case _ => true
  }

  /** No read of the evaluation falls in [lo, hi), and every symbol has an address. */
  predicate Safe(v: Value, c: Ctx, lo: int, hi: int) {
    match v
    case Imm(_) | AddrOf(_) => true
    case Local(_, _, _, decay) => AddrSafe(v, c, lo, hi) && (decay || Clear(AddrEval(v, c), lo, hi))
    case Global(_, decay) => AddrSafe(v, c, lo, hi) && (decay || Clear(AddrEval(v, c), lo, hi))
    case Str(id) => StringSym(id) in c.names.addr
    case Op(_, l, r) => Safe(l, c, lo, hi) && Safe(r, c, lo, hi)
    case Index(b, i, _, viaPointer) =>
      Safe(i, c, lo, hi) && (if viaPointer then Safe(b, c, lo, hi) else AddrSafe(b, c, lo, hi)) &&
      Clear(IndexAddr(v, c), lo, hi)
  }

  /** Stack words the evaluation has pushed at its deepest point. */
  function Depth(v: Value): nat {
    match v
    case Op(_, l, r) => if Depth(r) >= Depth(l) + 1 then Depth(r) else Depth(l) + 1
    case Index(b, i, _, _) => if Depth(b) >= Depth(i) then Depth(b) else Depth(i)
    case _ => 0
  }

  lemma RdFrame(a: u16, c: Ctx, m: Memory, lo: int, hi: int)
    requires Clear(a, lo, hi) && SameOutside(c.mem, m, lo, hi)
    ensures c.(mem := m).Rd(a) == c.Rd(a)
  {
    assert c.mem[a] == m[a] && c.mem[a + 1] == m[a + 1];
  }

  lemma AddrFrame(v: Value, c: Ctx, m: Memory, lo: int, hi: int)
    requires AddrSafe(v, c, lo, hi) && SameOutside(c.mem, m, lo, hi)
    ensures AddrSafe(v, c.(mem := m), lo, hi) && AddrEval(v, c.(mem := m)) == AddrEval(v, c)
  {
    if v.Local? && v.deref {
      RdFrame(Wrap(c.bp - Off(c.lay, v.x)), c, m, lo, hi);
    }
  }

  /** A value does not depend on memory its evaluation stays clear of. */
  lemma {:induction false} EvalFrame(v: Value, c: Ctx, m: Memory, lo: int, hi: int)
    requires Safe(v, c, lo, hi) && SameOutside(c.mem, m, lo, hi)
    ensures Safe(v, c.(mem := m), lo, hi) && Eval(v, c.(mem := m)) == Eval(v, c)
  {
    match v
    case Local(_, _, _, decay) =>
      AddrFrame(v, c, m, lo, hi);
      if !decay { RdFrame(AddrEval(v, c), c, m, lo, hi); }
    case Global(_, decay) =>
      AddrFrame(v, c, m, lo, hi);
      if !decay { RdFrame(AddrEval(v, c), c, m, lo, hi); }
    case Op(_, l, r) =>
      EvalFrame(l, c, m, lo, hi);
      EvalFrame(r, c, m, lo, hi);
    case Index(b, i, _, viaPointer) =>
      EvalFrame(i, c, m, lo, hi);
      if viaPointer { EvalFrame(b, c, m, lo, hi); } else { AddrFrame(b, c, m, lo, hi); }
      RdFrame(IndexAddr(v, c), c, m, lo, hi);
    case _ =>
  }

  /** Staying clear of a range implies staying clear of any part of it. */
  lemma {:induction false} SafeShrink(v: Value, c: Ctx, lo: int, hi: int, lo': int, hi': int)
    requires Safe(v, c, lo, hi) && lo <= lo' && hi' <= hi
    ensures Safe(v, c, lo', hi')
  {
    match v
    case Op(_, l, r) =>
      SafeShrink(l, c, lo, hi, lo', hi');
      SafeShrink(r, c, lo, hi, lo', hi');
    case Index(b, i, _, viaPointer) =>
      SafeShrink(i, c, lo, hi, lo', hi');
      if viaPointer {
        SafeShrink(b, c, lo, hi, lo', hi');
      }
    case _ =>
  }
}
