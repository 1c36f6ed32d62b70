/**
 The expression parser of the Leaf language: one cursor over the tokens, no precedence,
 at most one of each suffix per level. Printing with parentheses around operands is its
 inverse.
 */
module Parser {
  import opened Words

  datatype MathOp = Plus | Minus | Star | Slash | Percent | CmpEq | CmpNeq

  datatype Tok =
    | Sym(name: string) | Num(n: int) | Str(text: string) | Chr(code: int)
    | LParen | RParen | LBracket | RBracket | Dot | Comma | Amp | Math(op: MathOp) | Assign
    | Other(kind: int)

  datatype Tree =
    | Name(name: string)
    | Literal(n: int)
    | Text(text: string)
    | AddrOf(name: string)
    | FieldOf(base: Tree, field: string)
    | CallOf(callee: Tree, args: seq<Tree>)
    | IndexOf(base: Tree, index: Tree)
    | Binary(op: MathOp, left: Tree, right: Tree)
    | Set(left: Tree, right: Tree)
    | Cast(inner: Tree, typeName: string, pointer: bool)

  /** `Bad`: the parser reports an error and exits. `Deep`: it recurses deeper than allowed. */
  datatype Parsed<+T> = Done(v: T, cur: int) | Bad | Deep

  // The cursor -----------------------------------------------------------------------

  function Get(toks: seq<Tok>, i: int): Tok {
    if 0 <= i < |toks| then toks[i] else Other(0)
  }

  /** The cursor stays on the last token. */
  function Next(toks: seq<Tok>, cur: int): int {
    if cur == |toks| - 1 then cur else cur + 1
  }

  /** Peeking from the last token moves the cursor back by one. */
  function Peek(toks: seq<Tok>, cur: int): int {
    if cur == |toks| - 1 then cur - 1 else cur
  }

  /** A node has one cast: a second one replaces the first. */
  function WithCast(e: Tree, typeName: string, pointer: bool): Tree {
    if e.Cast? then Cast(e.inner, typeName, pointer) else Cast(e, typeName, pointer)
  }

  // The parser -----------------------------------------------------------------------

  function Parse(toks: seq<Tok>, cur: int, fuel: nat): Parsed<Tree>
    decreases fuel, 3
  {
    if fuel == 0 then Deep
    else
      match Primary(toks, cur, fuel - 1)
      case Done(e, c) => Suffixes(toks, e, c, fuel - 1)
      case o => o
  }

  function Primary(toks: seq<Tok>, cur: int, fuel: nat): Parsed<Tree>
    decreases fuel, 5
  {
    match Get(toks, cur)
    case LParen =>
      (match Parse(toks, Next(toks, cur), fuel)
       case Done(e, c) => Done(e, Next(toks, c))
       case o => o)
    case Sym(s) => Done(Name(s), cur)
    case Num(n) => Done(Literal(n), cur)
    case Str(s) => Done(Text(s), cur)
    case Chr(n) => Done(Literal(n), cur)
    case Amp =>
      var c := Next(toks, cur);
      (match Get(toks, c)
       case Sym(s) => Done(AddrOf(s), c)
       case _ => Bad)
    case LBracket => ParseCast(toks, Next(toks, cur), fuel)
    case _ => Bad
  }

  /** Behind the opening bracket: a type name, perhaps an ampersand, an expression, and
      the closing bracket. */
  function ParseCast(toks: seq<Tok>, cur: int, fuel: nat): Parsed<Tree>
    decreases fuel, 4
  {
    match Get(toks, cur)
    case Sym(ty) =>
      var c := Peek(toks, cur);
      var pointer := Get(toks, c + 1) == Amp;
      var c1 := if pointer then Next(toks, c) else c;
      (match Parse(toks, Next(toks, c1), fuel)
       case Done(e, c2) =>
         var c3 := Next(toks, c2);
         if Get(toks, c3) == RBracket then Done(WithCast(e, ty, pointer), c3) else Bad
       case o => o)
    case _ => Bad
  }

  function FieldSuffix(toks: seq<Tok>, e: Tree, cur: int): Parsed<Tree> {
    var c := Peek(toks, cur);
    if Get(toks, c + 1) != Dot then Done(e, c)
    else
      var f := Next(toks, Next(toks, c));
      match Get(toks, f)
      case Sym(s) => Done(FieldOf(e, s), f)
      case _ => Bad
  }

  /** The arguments from the cursor on, up to the closing parenthesis. */
  function Args(toks: seq<Tok>, cur: int, fuel: nat): Parsed<seq<Tree>>
    decreases fuel, 4
  {
    if Get(toks, cur) == RParen then Done([], cur)
    else
      match Parse(toks, cur, fuel)
      case Bad => Bad
      case Deep => Deep
      case Done(e, c) =>
        var d := Next(toks, c);
        match Get(toks, d)
        case RParen => Done([e], d)
        case Comma =>
          if fuel == 0 then Deep
          else
            (match Args(toks, Next(toks, d), fuel - 1)
             case Done(es, z) => Done([e] + es, z)
             case o => o)
        case _ => Bad
  }

  function CallSuffix(toks: seq<Tok>, e: Tree, cur: int, fuel: nat): Parsed<Tree>
    decreases fuel, 5
  {
    var c := Peek(toks, cur);
    if Get(toks, c + 1) != LParen then Done(e, c)
    else
      match Args(toks, Next(toks, Next(toks, c)), fuel)
      case Done(es, z) => Done(CallOf(e, es), z)
      case Bad => Bad
      case Deep => Deep
  }

  /** The closing bracket is stepped over unchecked. */
  function IndexSuffix(toks: seq<Tok>, e: Tree, cur: int, fuel: nat): Parsed<Tree>
    decreases fuel, 5
  {
    var c := Peek(toks, cur);
    if Get(toks, c + 1) != LBracket then Done(e, c)
    else
      match Parse(toks, Next(toks, Next(toks, c)), fuel)
      case Done(i, z) => Done(IndexOf(e, i), Next(toks, z))
      case o => o
  }

  function MathSuffix(toks: seq<Tok>, e: Tree, cur: int, fuel: nat): Parsed<Tree>
    decreases fuel, 5
  {
    var c := Peek(toks, cur);
    match Get(toks, c + 1)
    case Math(op) =>
      (match Parse(toks, Next(toks, Next(toks, c)), fuel)
       case Done(r, z) => Done(Binary(op, e, r), z)
       case o => o)
    case _ => Done(e, c)
  }

  function AssignSuffix(toks: seq<Tok>, e: Tree, cur: int, fuel: nat): Parsed<Tree>
    decreases fuel, 5
  {
    var c := Peek(toks, cur);
    if Get(toks, c + 1) != Assign then Done(e, c)
    else
      match Parse(toks, Next(toks, Next(toks, c)), fuel)
      case Done(r, z) => Done(Set(e, r), z)
      case o => o
  }

  function AfterIndex(toks: seq<Tok>, e: Tree, cur: int, fuel: nat): Parsed<Tree>
    decreases fuel, 6
  {
    match MathSuffix(toks, e, cur, fuel)
    case Done(d, c) => AssignSuffix(toks, d, c, fuel)
    case o => o
  }

  function AfterCall(toks: seq<Tok>, e: Tree, cur: int, fuel: nat): Parsed<Tree>
    decreases fuel, 7
  {
    match IndexSuffix(toks, e, cur, fuel)
    case Done(d, c) => AfterIndex(toks, d, c, fuel)
    case o => o
  }

  function AfterField(toks: seq<Tok>, e: Tree, cur: int, fuel: nat): Parsed<Tree>
    decreases fuel, 8
  {
    match CallSuffix(toks, e, cur, fuel)
    case Done(d, c) => AfterCall(toks, d, c, fuel)
    case o => o
  }

  /** The suffixes in the order the parser looks for them, each at most once. */
  function Suffixes(toks: seq<Tok>, e: Tree, cur: int, fuel: nat): Parsed<Tree>
    decreases fuel, 9
  {
    match FieldSuffix(toks, e, cur)
    case Done(d, c) => AfterField(toks, d, c, fuel)
    case o => o
  }

  // Printing -------------------------------------------------------------------------

  predicate Leaf(e: Tree) {
    e.Name? || e.Literal? || e.Text? || e.AddrOf?
  }

  function Print(e: Tree): seq<Tok>
    decreases e, 1
  {
    match e
    case Name(s) => [Sym(s)]
    case Literal(n) => [Num(n)]
    case Text(s) => [Str(s)]
    case AddrOf(s) => [Amp, Sym(s)]
    case FieldOf(b, f) => (if Leaf(b) then Print(b) else Paren(Print(b))) + [Dot, Sym(f)]
    case CallOf(b, args) => (if Leaf(b) then Print(b) else Paren(Print(b))) + [LParen] + PrintArgs(args)
    case IndexOf(b, i) => (if Leaf(b) then Print(b) else Paren(Print(b))) + [LBracket] + (Print(i) + [RBracket])
    case Binary(op, l, r) =>
      (if Leaf(l) then Print(l) else Paren(Print(l))) + [Math(op)] + (if Leaf(r) then Print(r) else Paren(Print(r)))
    case Set(l, r) =>
      (if Leaf(l) then Print(l) else Paren(Print(l))) + [Assign] + (if Leaf(r) then Print(r) else Paren(Print(r)))
    case Cast(i, ty, pointer) =>
      [LBracket, Sym(ty)] + (if pointer then [Amp] else []) + (Paren(Print(i)) + [RBracket])
  }

  /** The arguments with commas between them, and the closing parenthesis. */
  function PrintArgs(args: seq<Tree>): seq<Tok>
    decreases args, 0
  {
    if args == [] then [RParen]
    else Print(args[0]) + (if |args| == 1 then [RParen] else [Comma] + PrintArgs(args[1..]))
  }

  function Paren(ts: seq<Tok>): seq<Tok> {
    [LParen] + ts + [RParen]
  }

  function Operand(e: Tree): seq<Tok> {
    if Leaf(e) then Print(e) else Paren(Print(e))
  }

  /** No cast directly on a cast: a node cannot carry two. */
  predicate OneCast(e: Tree)
    decreases e, 1
  {
    match e
    case FieldOf(b, _) => OneCast(b)
    case CallOf(b, args) => OneCast(b) && AllOneCast(args)
    case IndexOf(b, i) => OneCast(b) && OneCast(i)
    case Binary(_, l, r) => OneCast(l) && OneCast(r)
    case Set(l, r) => OneCast(l) && OneCast(r)
    case Cast(i, _, _) => !i.Cast? && OneCast(i)
    case _ => true
  }

  predicate AllOneCast(args: seq<Tree>)
    decreases args, 0
  {
    args == [] || (OneCast(args[0]) && AllOneCast(args[1..]))
  }

  /** The tree with every cast on a cast replaced by the outer one. */
  function Norm(e: Tree): Tree
    decreases e, 1
  {
    match e
    case FieldOf(b, f) => FieldOf(Norm(b), f)
    case CallOf(b, args) => CallOf(Norm(b), NormArgs(args))
    case IndexOf(b, i) => IndexOf(Norm(b), Norm(i))
    case Binary(op, l, r) => Binary(op, Norm(l), Norm(r))
    case Set(l, r) => Set(Norm(l), Norm(r))
    case Cast(i, ty, pointer) => WithCast(Norm(i), ty, pointer)
    case _ => e
  }

  function NormArgs(args: seq<Tree>): seq<Tree>
    decreases args, 0
  {
    if args == [] then [] else [Norm(args[0])] + NormArgs(args[1..])
  }

  /** Recursion depth that is enough for a tree. */
  function Need(e: Tree): nat
    decreases e, 1
  {
    match e
    case FieldOf(b, _) => 2 + Need(b)
    case CallOf(b, args) => 2 + Need(b) + NeedArgs(args)
    case IndexOf(b, i) => 2 + Need(b) + Need(i)
    case Binary(_, l, r) => 3 + Need(l) + Need(r)
    case Set(l, r) => 3 + Need(l) + Need(r)
    case Cast(i, _, _) => 3 + Need(i)
    case _ => 1
  }

  function NeedArgs(args: seq<Tree>): nat
    decreases args, 0
  {
    if args == [] then 1 else 1 + Need(args[0]) + NeedArgs(args[1..])
  }

  // Stretches of tokens ----------------------------------------------------------------

  ghost predicate Seg(toks: seq<Tok>, cur: int, ts: seq<Tok>) {
    0 <= cur && cur + |ts| <= |toks| && forall k :: 0 <= k < |ts| ==> toks[cur + k] == ts[k]
  }

  lemma SegSplit(toks: seq<Tok>, cur: int, ts: seq<Tok>, a: seq<Tok>, b: seq<Tok>)
    requires Seg(toks, cur, ts) && ts == a + b
    ensures Seg(toks, cur, a) && Seg(toks, cur + |a|, b)
  {
    forall k | 0 <= k < |a| ensures toks[cur + k] == a[k] {
      assert ts[k] == a[k];
    }
    forall k | 0 <= k < |b| ensures toks[cur + |a| + k] == b[k] {
      assert ts[|a| + k] == b[k];
    }
  }

  lemma SegOne(toks: seq<Tok>, cur: int, t: Tok)
    requires Seg(toks, cur, [t])
    ensures Get(toks, cur) == t && 0 <= cur < |toks|
  {
    assert toks[cur + 0] == [t][0];
  }

  /** Tokens that end an expression. */
  predicate Stops(t: Tok) {
    !t.Dot? && !t.LParen? && !t.LBracket? && !t.Math? && !t.Assign?
  }

  // No suffix ----------------------------------------------------------------------------

  lemma StopIndex(toks: seq<Tok>, e: Tree, cur: int, fuel: nat)
    requires 0 <= cur < |toks| - 1 && Stops(Get(toks, cur + 1))
    ensures AfterIndex(toks, e, cur, fuel) == Done(e, cur)
  {
    hide Parse;
  }

  lemma StopCall(toks: seq<Tok>, e: Tree, cur: int, fuel: nat)
    requires 0 <= cur < |toks| - 1 && Stops(Get(toks, cur + 1))
    ensures AfterCall(toks, e, cur, fuel) == Done(e, cur)
  {
    hide Parse, AfterIndex;
    StopIndex(toks, e, cur, fuel);
  }

  lemma StopField(toks: seq<Tok>, e: Tree, cur: int, fuel: nat)
    requires 0 <= cur < |toks| - 1 && Stops(Get(toks, cur + 1))
    ensures AfterField(toks, e, cur, fuel) == Done(e, cur)
  {
    hide Args, AfterCall;
    StopCall(toks, e, cur, fuel);
  }

  lemma StopAll(toks: seq<Tok>, e: Tree, cur: int, fuel: nat)
    requires 0 <= cur < |toks| - 1 && Stops(Get(toks, cur + 1))
    ensures Suffixes(toks, e, cur, fuel) == Done(e, cur)
  {
    hide AfterField;
    StopField(toks, e, cur, fuel);
  }

  // One suffix ---------------------------------------------------------------------------

  /** The cursor stands before the last token, and these tokens come next. */
  ghost predicate Ahead(toks: seq<Tok>, cur: int, t: Tok, more: nat) {
    0 <= cur && cur + 1 + more < |toks| && toks[cur + 1] == t
  }

  lemma FieldNext(toks: seq<Tok>, e: Tree, cur: int, f: string, fuel: nat)
    requires Ahead(toks, cur, Dot, 2) && toks[cur + 2] == Sym(f) && Stops(toks[cur + 3])
    ensures Suffixes(toks, e, cur, fuel) == Done(FieldOf(e, f), cur + 2)
  {
    hide AfterField;
    StopField(toks, FieldOf(e, f), cur + 2, fuel);
  }

  lemma CallNext(toks: seq<Tok>, e: Tree, cur: int, args: seq<Tree>, z: int, fuel: nat)
    requires Ahead(toks, cur, LParen, 1) && Args(toks, cur + 2, fuel) == Done(args, z)
    requires 0 <= z < |toks| - 1 && Stops(toks[z + 1])
    ensures Suffixes(toks, e, cur, fuel) == Done(CallOf(e, args), z)
  {
    hide AfterCall, Args;
    assert CallSuffix(toks, e, cur, fuel) == Done(CallOf(e, args), z);
    StopCall(toks, CallOf(e, args), z, fuel);
    assert AfterField(toks, e, cur, fuel) == Done(CallOf(e, args), z);
  }

  /** The call suffix is not there. */
  lemma NoCall(toks: seq<Tok>, e: Tree, cur: int, fuel: nat)
    requires 0 <= cur < |toks| - 1 && !toks[cur + 1].Dot? && !toks[cur + 1].LParen?
    ensures Suffixes(toks, e, cur, fuel) == AfterCall(toks, e, cur, fuel)
  {
    hide AfterCall, Args;
    assert CallSuffix(toks, e, cur, fuel) == Done(e, cur);
    assert AfterField(toks, e, cur, fuel) == AfterCall(toks, e, cur, fuel);
  }

  lemma NoIndex(toks: seq<Tok>, e: Tree, cur: int, fuel: nat)
    requires 0 <= cur < |toks| - 1 && !toks[cur + 1].LBracket?
    ensures AfterCall(toks, e, cur, fuel) == AfterIndex(toks, e, cur, fuel)
  {
    hide AfterIndex, Parse;
    assert IndexSuffix(toks, e, cur, fuel) == Done(e, cur);
  }

  lemma IndexNext(toks: seq<Tok>, e: Tree, cur: int, i: Tree, z: int, fuel: nat)
    requires Ahead(toks, cur, LBracket, 1) && Parse(toks, cur + 2, fuel) == Done(i, z)
    requires 0 <= z < |toks| - 2 && Stops(toks[z + 2])
    ensures Suffixes(toks, e, cur, fuel) == Done(IndexOf(e, i), z + 1)
  {
    hide AfterIndex, Parse, Suffixes;
    NoCall(toks, e, cur, fuel);
    assert IndexSuffix(toks, e, cur, fuel) == Done(IndexOf(e, i), z + 1);
    StopIndex(toks, IndexOf(e, i), z + 1, fuel);
  }

  lemma MathNext(toks: seq<Tok>, e: Tree, cur: int, op: MathOp, r: Tree, z: int, fuel: nat)
    requires Ahead(toks, cur, Math(op), 1) && Parse(toks, cur + 2, fuel) == Done(r, z)
    requires 0 <= z < |toks| - 1 && Stops(toks[z + 1])
    ensures Suffixes(toks, e, cur, fuel) == Done(Binary(op, e, r), z)
  {
    hide AfterCall, Parse, Suffixes;
    NoCall(toks, e, cur, fuel);
    NoIndex(toks, e, cur, fuel);
    assert MathSuffix(toks, e, cur, fuel) == Done(Binary(op, e, r), z);
    assert AssignSuffix(toks, Binary(op, e, r), z, fuel) == Done(Binary(op, e, r), z);
  }

  lemma AssignNext(toks: seq<Tok>, e: Tree, cur: int, r: Tree, z: int, fuel: nat)
    requires Ahead(toks, cur, Assign, 1) && Parse(toks, cur + 2, fuel) == Done(r, z)
    ensures Suffixes(toks, e, cur, fuel) == Done(Set(e, r), z)
  {
    hide AfterCall, Parse, Suffixes;
    NoCall(toks, e, cur, fuel);
    NoIndex(toks, e, cur, fuel);
    assert MathSuffix(toks, e, cur, fuel) == Done(e, cur);
    assert AssignSuffix(toks, e, cur, fuel) == Done(Set(e, r), z);
  }

  // The round trip -----------------------------------------------------------------------

  /** The tokens of a tree stand at the cursor, and another token follows. */
  ghost predicate Here(toks: seq<Tok>, cur: int, ts: seq<Tok>) {
    0 <= cur && cur + |ts| < |toks| && Seg(toks, cur, ts)
  }

  lemma Split(toks: seq<Tok>, cur: int, ts: seq<Tok>, a: seq<Tok>, b: seq<Tok>)
    requires Here(toks, cur, ts) && ts == a + b
    ensures Here(toks, cur, a) && Here(toks, cur + |a|, b)
    ensures 0 <= cur && cur + |a| + |b| < |toks|
  {
    hide Seg;
    SegSplit(toks, cur, ts, a, b);
  }

  lemma One(toks: seq<Tok>, cur: int, t: Tok)
    requires Here(toks, cur, [t])
    ensures 0 <= cur < |toks| - 1 && toks[cur] == t && Get(toks, cur) == t
  {
    SegOne(toks, cur, t);
  }

  lemma {:induction false} LeafBack(e: Tree, toks: seq<Tok>, cur: int, fuel: nat)
    requires Leaf(e) && Here(toks, cur, Print(e))
    ensures Primary(toks, cur, fuel) == Done(e, cur + |Print(e)| - 1)
  {
    hide Parse, Here;
    if e.AddrOf? {
      Split(toks, cur, Print(e), [Amp], [Sym(e.name)]);
      One(toks, cur, Amp);
      One(toks, cur + 1, Sym(e.name));
    } else {
      assert Print(e) == [Print(e)[0]];
      One(toks, cur, Print(e)[0]);
    }
  }

  /** The inside of parentheses, ready to be parsed. */
  lemma ParenInside(ts: seq<Tok>, toks: seq<Tok>, cur: int)
    requires Here(toks, cur, Paren(ts))
    ensures 0 <= cur && cur + |ts| + 2 < |toks|
    ensures Get(toks, cur) == LParen && Here(toks, cur + 1, ts) && toks[cur + 1 + |ts|] == RParen
  {
    hide Here;
    Split(toks, cur, Paren(ts), [LParen], ts + [RParen]);
    Split(toks, cur + 1, ts + [RParen], ts, [RParen]);
    One(toks, cur, LParen);
    One(toks, cur + 1 + |ts|, RParen);
  }

  lemma ParenBack(e: Tree, toks: seq<Tok>, cur: int, z: int, fuel: nat)
    requires Get(toks, cur) == LParen && 0 <= cur < z < |toks| - 1 && Parse(toks, cur + 1, fuel) == Done(e, z)
    ensures Primary(toks, cur, fuel) == Done(e, z + 1)
  {
    hide Parse;
  }

  lemma ParenSize(ts: seq<Tok>)
    ensures |Paren(ts)| == |ts| + 2
  {
  }

  lemma Shapes(e: Tree)
    ensures |Print(e)| > 0 && |Operand(e)| > 0 && Need(e) > 0
    ensures Operand(e) == if Leaf(e) then Print(e) else Paren(Print(e))
  {
  }

  lemma LeafNorm(e: Tree)
    requires Leaf(e)
    ensures Norm(e) == e
  {
  }

  lemma {:induction false} OperandBack(e: Tree, toks: seq<Tok>, cur: int, fuel: nat)
    requires Here(toks, cur, Operand(e)) && fuel >= Need(e)
    ensures Primary(toks, cur, fuel) == Done(Norm(e), cur + |Operand(e)| - 1)
    decreases e, 2
  {
    hide Primary, Parse, Print, Need, Operand, Seg, Norm;
    Shapes(e);
    if Leaf(e) {
      LeafNorm(e);
      LeafBack(e, toks, cur, fuel);
    } else {
      ParenInside(Print(e), toks, cur);
      ParseBack(e, toks, cur + 1, fuel);
      ParenBack(Norm(e), toks, cur, cur + |Print(e)|, fuel);
    }
  }

  lemma ParseIs(toks: seq<Tok>, cur: int, fuel: nat, e: Tree, c: int)
    requires fuel > 0 && Primary(toks, cur, fuel - 1) == Done(e, c)
    ensures Parse(toks, cur, fuel) == Suffixes(toks, e, c, fuel - 1)
  {
    hide Primary, Suffixes;
  }

  /** An operand as a whole expression, with something behind it that ends it. */
  lemma {:induction false} OperandParses(e: Tree, toks: seq<Tok>, cur: int, fuel: nat)
    requires Here(toks, cur, Operand(e)) && Stops(toks[cur + |Operand(e)|]) && fuel >= Need(e) + 1
    ensures Parse(toks, cur, fuel) == Done(Norm(e), cur + |Operand(e)| - 1)
    decreases e, 3
  {
    hide Primary, Suffixes, Parse, Operand, Need, Seg, Norm;
    Shapes(e);
    OperandBack(e, toks, cur, fuel - 1);
    ParseIs(toks, cur, fuel, Norm(e), cur + |Operand(e)| - 1);
    StopAll(toks, Norm(e), cur + |Operand(e)| - 1, fuel - 1);
  }

  /** Everything a tree needs to be parsed back. */
  ghost predicate CanParse(e: Tree, toks: seq<Tok>, cur: int, fuel: nat) {
    Here(toks, cur, Print(e)) && Stops(toks[cur + |Print(e)|]) && fuel >= Need(e)
  }

  lemma Unpack(e: Tree, toks: seq<Tok>, cur: int, fuel: nat)
    requires CanParse(e, toks, cur, fuel)
    ensures Here(toks, cur, Print(e)) && fuel >= Need(e) > 0
    ensures 0 <= cur && cur + |Print(e)| < |toks| && Stops(toks[cur + |Print(e)|])
  {
  }

  lemma CloserStops()
    ensures Stops(RBracket) && Stops(RParen) && Stops(Comma)
  {
  }

  lemma FieldParts(b: Tree, f: string)
    ensures Print(FieldOf(b, f)) == Operand(b) + [Dot, Sym(f)]
    ensures Need(FieldOf(b, f)) == 2 + Need(b) && Norm(FieldOf(b, f)) == FieldOf(Norm(b), f)
  {
  }

  lemma {:induction false} FieldBack(e: Tree, b: Tree, f: string, toks: seq<Tok>, cur: int, fuel: nat)
    requires e == FieldOf(b, f) && CanParse(e, toks, cur, fuel)
    ensures Parse(toks, cur, fuel) == Done(Norm(e), cur + |Print(e)| - 1)
    decreases e, 0
  {
    hide *;
    Unpack(e, toks, cur, fuel);
    FieldParts(b, f);
    Shapes(b);
    var ts := Operand(b);
    Split(toks, cur, Print(e), ts, [Dot, Sym(f)]);
    Split(toks, cur + |ts|, [Dot, Sym(f)], [Dot], [Sym(f)]);
    One(toks, cur + |ts|, Dot);
    One(toks, cur + |ts| + 1, Sym(f));
    OperandBack(b, toks, cur, fuel - 1);
    ParseIs(toks, cur, fuel, Norm(b), cur + |ts| - 1);
    IsAhead(toks, cur + |ts| - 1, Dot, 2);
    FieldNext(toks, Norm(b), cur + |ts| - 1, f, fuel - 1);
  }

  lemma IsAhead(toks: seq<Tok>, cur: int, t: Tok, more: nat)
    requires 0 <= cur && cur + 1 + more < |toks| && toks[cur + 1] == t
    ensures Ahead(toks, cur, t, more)
  {
  }

  lemma CallParts(b: Tree, args: seq<Tree>)
    ensures Print(CallOf(b, args)) == (Operand(b) + [LParen]) + PrintArgs(args) && |PrintArgs(args)| > 0
    ensures Need(CallOf(b, args)) == 2 + Need(b) + NeedArgs(args)
    ensures Norm(CallOf(b, args)) == CallOf(Norm(b), NormArgs(args))
  {
  }

  lemma {:induction false} CallBack(e: Tree, b: Tree, args: seq<Tree>, toks: seq<Tok>, cur: int, fuel: nat)
    requires e == CallOf(b, args) && CanParse(e, toks, cur, fuel)
    ensures Parse(toks, cur, fuel) == Done(Norm(e), cur + |Print(e)| - 1)
    decreases e, 0
  {
    hide *;
    Unpack(e, toks, cur, fuel);
    CallParts(b, args);
    Shapes(b);
    var ts := Operand(b);
    Split(toks, cur, Print(e), ts + [LParen], PrintArgs(args));
    Split(toks, cur, ts + [LParen], ts, [LParen]);
    One(toks, cur + |ts|, LParen);
    OperandBack(b, toks, cur, fuel - 1);
    ParseIs(toks, cur, fuel, Norm(b), cur + |ts| - 1);
    ArgsBack(args, toks, cur + |ts| + 1, fuel - 1);
    IsAhead(toks, cur + |ts| - 1, LParen, 1);
    CallNext(toks, Norm(b), cur + |ts| - 1, NormArgs(args), cur + |Print(e)| - 1, fuel - 1);
  }

  lemma ArgsPrint(args: seq<Tree>)
    requires args != []
    ensures PrintArgs(args) == Print(args[0]) + (if |args| == 1 then [RParen] else [Comma] + PrintArgs(args[1..]))
  {
    hide Print;
  }

  lemma ArgsParts(args: seq<Tree>)
    requires args != []
    ensures NeedArgs(args) == 1 + Need(args[0]) + NeedArgs(args[1..])
    ensures NormArgs(args) == [Norm(args[0])] + NormArgs(args[1..])
  {
    hide Need, Norm;
  }

  lemma ArgsSome(args: seq<Tree>)
    ensures |PrintArgs(args)| > 0 && NeedArgs(args) > 0
  {
    hide Print, Need;
  }

  lemma NoArgs(toks: seq<Tok>, cur: int, fuel: nat)
    requires Get(toks, cur) == RParen
    ensures Args(toks, cur, fuel) == Done([], cur) && PrintArgs([]) == [RParen]
  {
  }

  lemma LastArg(toks: seq<Tok>, cur: int, e: Tree, c: int, fuel: nat)
    requires !Get(toks, cur).RParen? && Parse(toks, cur, fuel) == Done(e, c)
    requires 0 <= c < |toks| - 1 && toks[c + 1] == RParen
    ensures Args(toks, cur, fuel) == Done([e], c + 1)
  {
    hide Parse;
  }

  lemma MoreArgs(toks: seq<Tok>, cur: int, e: Tree, c: int, rest: seq<Tree>, z: int, fuel: nat)
    requires !Get(toks, cur).RParen? && Parse(toks, cur, fuel) == Done(e, c) && fuel > 0
    requires 0 <= c < |toks| - 2 && toks[c + 1] == Comma && Args(toks, c + 2, fuel - 1) == Done(rest, z)
    ensures Args(toks, cur, fuel) == Done([e] + rest, z)
  {
    hide Parse;
  }

  lemma {:induction false} ArgsBack(args: seq<Tree>, toks: seq<Tok>, cur: int, fuel: nat)
    requires Here(toks, cur, PrintArgs(args)) && fuel >= NeedArgs(args)
    ensures Args(toks, cur, fuel) == Done(NormArgs(args), cur + |PrintArgs(args)| - 1)
    decreases args, 0
  {
    hide *;
    if args == [] {
      NoArgsPrint();
      One(toks, cur, RParen);
      NoArgs(toks, cur, fuel);
    } else {
      var a, tail := args[0], if |args| == 1 then [RParen] else [Comma] + PrintArgs(args[1..]);
      ArgsParts(args);
      ArgsPrint(args);
      ArgsSome(args[1..]);
      Shapes(a);
      CloserStops();
      var c := cur + |Print(a)|;
      Split(toks, cur, PrintArgs(args), Print(a), tail);
      Split(toks, c, tail, [tail[0]], tail[1..]);
      One(toks, c, tail[0]);
      FirstToken(a, toks, cur);
      ParseBack(a, toks, cur, fuel);
      if |args| > 1 {
        assert tail[1..] == PrintArgs(args[1..]);
        ArgsBack(args[1..], toks, c + 1, fuel - 1);
        MoreArgs(toks, cur, Norm(a), c - 1, NormArgs(args[1..]), cur + |PrintArgs(args)| - 1, fuel);
      } else {
        LastArg(toks, cur, Norm(a), c - 1, fuel);
        NoArgsPrint();
        assert args[1..] == [];
        assert NormArgs(args) == [Norm(a)];
      }
    }
  }

  lemma NoArgsPrint()
    ensures PrintArgs([]) == [RParen] && NormArgs([]) == []
  {
  }

  lemma NotCloser(e: Tree)
    ensures |Print(e)| > 0 && Print(e)[0] != RParen
  {
  }

  /** An argument does not begin with a closing parenthesis. */
  lemma FirstToken(e: Tree, toks: seq<Tok>, cur: int)
    requires Here(toks, cur, Print(e))
    ensures !Get(toks, cur).RParen?
  {
    hide *;
    NotCloser(e);
    Split(toks, cur, Print(e), [Print(e)[0]], Print(e)[1..]);
    One(toks, cur, Print(e)[0]);
  }

  lemma IndexParts(b: Tree, i: Tree)
    ensures Print(IndexOf(b, i)) == (Operand(b) + [LBracket]) + (Print(i) + [RBracket])
    ensures Need(IndexOf(b, i)) == 2 + Need(b) + Need(i) && Norm(IndexOf(b, i)) == IndexOf(Norm(b), Norm(i))
  {
  }

  lemma {:induction false} IndexBack(e: Tree, b: Tree, i: Tree, toks: seq<Tok>, cur: int, fuel: nat)
    requires e == IndexOf(b, i) && CanParse(e, toks, cur, fuel)
    ensures Parse(toks, cur, fuel) == Done(Norm(e), cur + |Print(e)| - 1)
    decreases e, 0
  {
    hide *;
    Unpack(e, toks, cur, fuel);
    IndexParts(b, i);
    Shapes(b);
    Shapes(i);
    CloserStops();
    var ts := Operand(b);
    var inside := cur + |ts| + 1;
    Split(toks, cur, Print(e), ts + [LBracket], Print(i) + [RBracket]);
    Split(toks, cur, ts + [LBracket], ts, [LBracket]);
    Split(toks, inside, Print(i) + [RBracket], Print(i), [RBracket]);
    One(toks, cur + |ts|, LBracket);
    One(toks, inside + |Print(i)|, RBracket);
    OperandBack(b, toks, cur, fuel - 1);
    ParseIs(toks, cur, fuel, Norm(b), cur + |ts| - 1);
    ParseBack(i, toks, inside, fuel - 1);
    IsAhead(toks, cur + |ts| - 1, LBracket, 1);
    IndexNext(toks, Norm(b), cur + |ts| - 1, Norm(i), inside + |Print(i)| - 1, fuel - 1);
  }

  lemma InfixParts(e: Tree, l: Tree, t: Tok, r: Tree)
    requires if t.Math? then e == Binary(t.op, l, r) else t.Assign? && e == Set(l, r)
    ensures Print(e) == (Operand(l) + [t]) + Operand(r)
    ensures Need(e) == 3 + Need(l) + Need(r) && Norm(e) == if t.Math? then Binary(t.op, Norm(l), Norm(r)) else Set(Norm(l), Norm(r))
  {
  }

  lemma {:induction false} InfixBack(e: Tree, l: Tree, t: Tok, r: Tree, toks: seq<Tok>, cur: int, fuel: nat)
    requires if t.Math? then e == Binary(t.op, l, r) else t.Assign? && e == Set(l, r)
    requires CanParse(e, toks, cur, fuel)
    ensures Parse(toks, cur, fuel) == Done(Norm(e), cur + |Print(e)| - 1)
    decreases e, 0
  {
    hide *;
    Unpack(e, toks, cur, fuel);
    InfixParts(e, l, t, r);
    Shapes(l);
    Shapes(r);
    var ts, us := Operand(l), Operand(r);
    Split(toks, cur, Print(e), ts + [t], us);
    Split(toks, cur, ts + [t], ts, [t]);
    One(toks, cur + |ts|, t);
    OperandBack(l, toks, cur, fuel - 1);
    ParseIs(toks, cur, fuel, Norm(l), cur + |ts| - 1);
    OperandParses(r, toks, cur + |ts| + 1, fuel - 1);
    IsAhead(toks, cur + |ts| - 1, t, 1);
    if t.Math? {
      MathNext(toks, Norm(l), cur + |ts| - 1, t.op, Norm(r), cur + |ts| + |us|, fuel - 1);
    } else {
      AssignNext(toks, Norm(l), cur + |ts| - 1, Norm(r), cur + |ts| + |us|, fuel - 1);
    }
  }

  /** A cast around an expression in parentheses. */
  lemma CastNext(toks: seq<Tok>, cur: int, ty: string, pointer: bool, i: Tree, at: int, z: int, fuel: nat)
    requires 0 <= cur && at == (if pointer then cur + 3 else cur + 2) && at <= z < |toks| - 2
    requires toks[cur] == LBracket && toks[cur + 1] == Sym(ty) && toks[z + 1] == RBracket
    requires toks[cur + 2] == if pointer then Amp else LParen
    requires Parse(toks, at, fuel) == Done(i, z)
    ensures Primary(toks, cur, fuel) == Done(WithCast(i, ty, pointer), z + 1)
  {
    hide Parse;
    assert ParseCast(toks, cur + 1, fuel) == Done(WithCast(i, ty, pointer), z + 1);
  }

  lemma CastParts(i: Tree, ty: string, pointer: bool)
    ensures Print(Cast(i, ty, pointer)) ==
            ([LBracket, Sym(ty)] + (if pointer then [Amp] else [])) + (Paren(Print(i)) + [RBracket])
    ensures Need(Cast(i, ty, pointer)) == 3 + Need(i) && Norm(Cast(i, ty, pointer)) == WithCast(Norm(i), ty, pointer)
  {
  }

  /** The tokens in front of what is cast. */
  lemma CastHead(toks: seq<Tok>, cur: int, ty: string, pointer: bool)
    requires Here(toks, cur, [LBracket, Sym(ty)] + (if pointer then [Amp] else []))
    ensures 0 <= cur && cur + 2 < |toks| && toks[cur] == LBracket && toks[cur + 1] == Sym(ty)
    ensures pointer ==> toks[cur + 2] == Amp
  {
    hide Here;
    var star := if pointer then [Amp] else [];
    Split(toks, cur, [LBracket, Sym(ty)] + star, [LBracket], [Sym(ty)] + star);
    Split(toks, cur + 1, [Sym(ty)] + star, [Sym(ty)], star);
    One(toks, cur, LBracket);
    One(toks, cur + 1, Sym(ty));
    if pointer {
      One(toks, cur + 2, Amp);
    }
  }

  lemma {:induction false} CastBack(e: Tree, i: Tree, ty: string, pointer: bool, toks: seq<Tok>, cur: int, fuel: nat)
    requires e == Cast(i, ty, pointer) && CanParse(e, toks, cur, fuel)
    ensures Parse(toks, cur, fuel) == Done(Norm(e), cur + |Print(e)| - 1)
    decreases e, 0
  {
    hide *;
    Unpack(e, toks, cur, fuel);
    CastParts(i, ty, pointer);
    Shapes(i);
    CloserStops();
    var star, body := if pointer then [Amp] else [], Paren(Print(i));
    ParenSize(Print(i));
    var at := cur + 2 + |star|;
    Split(toks, cur, Print(e), [LBracket, Sym(ty)] + star, body + [RBracket]);
    CastHead(toks, cur, ty, pointer);
    Split(toks, at, body + [RBracket], body, [RBracket]);
    One(toks, at + |body|, RBracket);
    ParenInside(Print(i), toks, at);
    InRange(toks, at);
    var z := at + |body| - 1;
    ParseBack(i, toks, at + 1, fuel - 2);
    ParenBack(Norm(i), toks, at, z - 1, fuel - 2);
    ParseIs(toks, at, fuel - 1, Norm(i), z);
    InRange(toks, z + 1);
    StopAll(toks, Norm(i), z, fuel - 2);
    CastNext(toks, cur, ty, pointer, Norm(i), at, z, fuel - 1);
    ParseIs(toks, cur, fuel, Norm(e), z + 1);
    InRange(toks, z + 2);
    StopAll(toks, Norm(e), z + 1, fuel - 1);
  }

  lemma InRange(toks: seq<Tok>, i: int)
    requires 0 <= i < |toks|
    ensures Get(toks, i) == toks[i]
  {
  }

  lemma {:induction false} ParseBack(e: Tree, toks: seq<Tok>, cur: int, fuel: nat)
    requires Here(toks, cur, Print(e)) && Stops(toks[cur + |Print(e)|]) && fuel >= Need(e)
    ensures Parse(toks, cur, fuel) == Done(Norm(e), cur + |Print(e)| - 1)
    decreases e, 1
  {
    hide Primary, Suffixes, Parse, Print, Need, Seg, Norm;
    match e
    case FieldOf(b, f) => FieldBack(e, b, f, toks, cur, fuel);
    case CallOf(b, args) => CallBack(e, b, args, toks, cur, fuel);
    case IndexOf(b, i) => IndexBack(e, b, i, toks, cur, fuel);
    case Binary(op, l, r) => InfixBack(e, l, Math(op), r, toks, cur, fuel);
    case Set(l, r) => InfixBack(e, l, Assign, r, toks, cur, fuel);
    case Cast(i, ty, pointer) => CastBack(e, i, ty, pointer, toks, cur, fuel);
    case _ =>
      Shapes(e);
      LeafNorm(e);
      LeafBack(e, toks, cur, fuel - 1);
      ParseIs(toks, cur, fuel, e, cur + |Print(e)| - 1);
      StopAll(toks, e, cur + |Print(e)| - 1, fuel - 1);
  }

  // What printing and parsing give ---------------------------------------------------------

  lemma {:induction false} NormIsSame(e: Tree)
    ensures Norm(e) == e <==> OneCast(e)
    decreases e, 1
  {
    match e
    case FieldOf(b, _) => NormIsSame(b);
    case CallOf(b, args) =>
      NormIsSame(b);
      NormArgsSame(args);
    case IndexOf(b, i) =>
      NormIsSame(b);
      NormIsSame(i);
    case Binary(_, l, r) =>
      NormIsSame(l);
      NormIsSame(r);
    case Set(l, r) =>
      NormIsSame(l);
      NormIsSame(r);
    case Cast(i, _, _) =>
      NormIsSame(i);
      CastStays(i);
    case _ =>
  }

  lemma {:induction false} NormArgsSame(args: seq<Tree>)
    ensures NormArgs(args) == args <==> AllOneCast(args)
    decreases args, 0
  {
    hide Norm, OneCast;
    if args != [] {
      NormIsSame(args[0]);
      NormArgsSame(args[1..]);
      assert args == [args[0]] + args[1..];
      assert NormArgs(args)[0] == Norm(args[0]) && NormArgs(args)[1..] == NormArgs(args[1..]);
    }
  }

  /** What is under a collapsed cast is smaller than the inner cast it came from. */
  lemma CastStays(i: Tree)
    ensures i.Cast? <==> Norm(i).Cast?
    ensures i.Cast? ==> Norm(i).inner != i
  {
    NormSmaller(i);
  }

  lemma {:induction false} NormSmaller(e: Tree)
    ensures Need(Norm(e)) <= Need(e)
    decreases e, 1
  {
    match e
    case FieldOf(b, _) => NormSmaller(b);
    case CallOf(b, args) =>
      NormSmaller(b);
      NormArgsSmaller(args);
    case IndexOf(b, i) =>
      NormSmaller(b);
      NormSmaller(i);
    case Binary(_, l, r) =>
      NormSmaller(l);
      NormSmaller(r);
    case Set(l, r) =>
      NormSmaller(l);
      NormSmaller(r);
    case Cast(i, _, _) => NormSmaller(i);
    case _ =>
  }

  lemma {:induction false} NormArgsSmaller(args: seq<Tree>)
    ensures NeedArgs(NormArgs(args)) <= NeedArgs(args)
    decreases args, 0
  {
    hide Norm, Need;
    if args != [] {
      NormSmaller(args[0]);
      NormArgsSmaller(args[1..]);
      assert NormArgs(args)[0] == Norm(args[0]) && NormArgs(args)[1..] == NormArgs(args[1..]);
    }
  }

  /**
   Printing a tree with parentheses around its operands and parsing the tokens, with any
   terminator behind them and whatever else around, gives the tree back with the cursor on
   its last token, exactly if no cast stands directly on another; otherwise it gives the
   tree with such casts collapsed.
   */
  lemma RoundTrip(e: Tree, before: seq<Tok>, stop: Tok, behind: seq<Tok>, fuel: nat)
    requires Stops(stop) && fuel >= Need(e)
    ensures var r := Parse(before + Print(e) + [stop] + behind, |before|, fuel);
            && r == Done(Norm(e), |before| + |Print(e)| - 1)
            && (r == Done(e, |before| + |Print(e)| - 1) <==> OneCast(e))
  {
    hide Parse, Print, Norm, OneCast, Need, Stops;
    var toks := before + Print(e) + [stop] + behind;
    assert toks[|before| + |Print(e)|] == stop;
    ParseBack(e, toks, |before|, fuel);
    NormIsSame(e);
  }
}
