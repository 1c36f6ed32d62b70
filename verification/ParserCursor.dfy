/**
 The parser as an object that moves its cursor over the tokens, proved against the
 parsing functions.
 */
module ParserCursor {
  import opened Words
  import opened Parser

  datatype End = Fine | Error | TooDeep

  class Cursor {
    const toks: seq<Tok>
    var sel: int

    constructor (toks: seq<Tok>)
      ensures this.toks == toks && sel == 0
    {
      this.toks := toks;
      sel := 0;
    }

    method TokCur() returns (t: Tok)
      ensures t == Get(toks, sel)
    {
      t := Get(toks, sel);
    }

    method TokNext() returns (t: Tok)
      modifies this
      ensures sel == Next(toks, old(sel)) && t == Get(toks, sel)
    {
      if sel == |toks| - 1 {
        sel := sel - 1;
      }
      sel := sel + 1;
      t := Get(toks, sel);
    }

    method TokPeek() returns (t: Tok)
      modifies this
      ensures sel == Peek(toks, old(sel)) && t == Get(toks, sel + 1)
    {
      if sel == |toks| - 1 {
        sel := sel - 1;
      }
      t := Get(toks, sel + 1);
    }

    ghost predicate Gave(x: End, e: Tree, p: Parsed<Tree>)
      reads this
    {
      match p
      case Done(v, c) => x == Fine && e == v && sel == c
      case Bad => x == Error
      case Deep => x == TooDeep
    }

    ghost predicate GaveArgs(x: End, es: seq<Tree>, p: Parsed<seq<Tree>>)
      reads this
    {
      match p
      case Done(v, c) => x == Fine && es == v && sel == c
      case Bad => x == Error
      case Deep => x == TooDeep
    }

    /** One expression, with at most `fuel` nested ones. */
    method ParseExprInside(fuel: nat) returns (x: End, e: Tree)
      modifies this
      ensures Gave(x, e, Parse(toks, old(sel), fuel))
      decreases fuel, 3
    {
      hide Primary, FieldSuffix, CallSuffix, IndexSuffix, MathSuffix, AssignSuffix;
      e := Literal(0);
      if fuel == 0 {
        return TooDeep, e;
      }
      x, e := ParsePrimary(fuel - 1);
      if x != Fine { return; }
      x, e := ParseSuffixes(e, fuel - 1);
    }

    method ParseSuffixes(left: Tree, fuel: nat) returns (x: End, e: Tree)
      modifies this
      ensures Gave(x, e, Suffixes(toks, left, old(sel), fuel))
      decreases fuel, 9
    {
      hide FieldSuffix, AfterField;
      x, e := ParseField(left);
      if x != Fine { return; }
      x, e := ParseAfterField(e, fuel);
    }

    method ParseAfterField(left: Tree, fuel: nat) returns (x: End, e: Tree)
      modifies this
      ensures Gave(x, e, AfterField(toks, left, old(sel), fuel))
      decreases fuel, 8
    {
      hide CallSuffix, AfterCall;
      x, e := ParseCall(left, fuel);
      if x != Fine { return; }
      x, e := ParseAfterCall(e, fuel);
    }

    method ParseAfterCall(left: Tree, fuel: nat) returns (x: End, e: Tree)
      modifies this
      ensures Gave(x, e, AfterCall(toks, left, old(sel), fuel))
      decreases fuel, 7
    {
      hide IndexSuffix, AfterIndex;
      x, e := ParseIndex(left, fuel);
      if x != Fine { return; }
      x, e := ParseAfterIndex(e, fuel);
    }

    method ParseAfterIndex(left: Tree, fuel: nat) returns (x: End, e: Tree)
      modifies this
      ensures Gave(x, e, AfterIndex(toks, left, old(sel), fuel))
      decreases fuel, 6
    {
      hide MathSuffix, AssignSuffix;
      x, e := ParseMath(left, fuel);
      if x != Fine { return; }
      x, e := ParseAssign(e, fuel);
    }

    method ParsePrimary(fuel: nat) returns (x: End, e: Tree)
      modifies this
      ensures Gave(x, e, Primary(toks, old(sel), fuel))
      decreases fuel, 5
    {
      hide Parse, ParseCast;
      x, e := Fine, Literal(0);
      var tok := TokCur();
      match tok {
        case LParen =>
          tok := TokNext();
          x, e := ParseExprInside(fuel);
          if x != Fine { return; }
          tok := TokNext();
        case Sym(s) => e := Name(s);
        case Num(n) => e := Literal(n);
        case Str(s) => e := Text(s);
        case Chr(n) => e := Literal(n);
        case Amp =>
          tok := TokNext();
          if !tok.Sym? { return Error, e; }
          e := AddrOf(tok.name);
        case LBracket =>
          tok := TokNext();
          x, e := ParseCastInside(fuel);
        case _ => x := Error;
      }
    }

    method ParseCastInside(fuel: nat) returns (x: End, e: Tree)
      modifies this
      ensures Gave(x, e, ParseCast(toks, old(sel), fuel))
      decreases fuel, 4
    {
      hide Parse;
      x, e := Error, Literal(0);
      var tok := TokCur();
      if !tok.Sym? { return; }
      var typeName := tok.name;
      tok := TokPeek();
      var pointer := tok == Amp;
      if pointer {
        tok := TokNext();
      }
      tok := TokNext();
      x, e := ParseExprInside(fuel);
      if x != Fine { return; }
      e := WithCast(e, typeName, pointer);
      tok := TokNext();
      x := if tok == RBracket then Fine else Error;
    }

    method ParseField(left: Tree) returns (x: End, e: Tree)
      modifies this
      ensures Gave(x, e, FieldSuffix(toks, left, old(sel)))
    {
      x, e := Fine, left;
      var tok := TokPeek();
      if tok == Dot {
        tok := TokNext();
        tok := TokNext();
        if !tok.Sym? { return Error, e; }
        e := FieldOf(left, tok.name);
      }
    }

    method ParseCall(left: Tree, fuel: nat) returns (x: End, e: Tree)
      modifies this
      ensures Gave(x, e, CallSuffix(toks, left, old(sel), fuel))
      decreases fuel, 5
    {
      hide Args;
      x, e := Fine, left;
      var tok := TokPeek();
      if tok == LParen {
        tok := TokNext();
        tok := TokNext();
        var args;
        x, args := ParseCallArgs(fuel);
        e := CallOf(left, args);
      }
    }

    /** The loop over the arguments: one expression, then a comma or the end. */
    method ParseCallArgs(fuel: nat) returns (x: End, args: seq<Tree>)
      modifies this
      ensures GaveArgs(x, args, Args(toks, old(sel), fuel))
      decreases fuel, 4
    {
      hide Parse;
      args := [];
      var left: nat := fuel;
      var tok := TokCur();
      ContinuedNone(Args(toks, sel, fuel));
      while true
        invariant left <= fuel && tok == Get(toks, sel)
        invariant Continued(args, Args(toks, sel, left)) == Args(toks, old(sel), fuel)
        decreases left
      {
        if tok == RParen {
          return Fine, args;
        }
        var e;
        x, e := ParseExprInside(left);
        if x != Fine { return; }
        tok := TokNext();
        if tok == RParen {
          return Fine, args + [e];
        }
        if tok != Comma {
          return Error, args;
        }
        if left == 0 {
          return TooDeep, args;
        }
        tok := TokNext();
        ContinuedMore(args, e, Args(toks, sel, left - 1));
        args := args + [e];
        left := left - 1;
      }
    }

    method ParseIndex(left: Tree, fuel: nat) returns (x: End, e: Tree)
      modifies this
      ensures Gave(x, e, IndexSuffix(toks, left, old(sel), fuel))
      decreases fuel, 5
    {
      hide Parse;
      x, e := Fine, left;
      var tok := TokPeek();
      if tok == LBracket {
        tok := TokNext();
        tok := TokNext();
        var i;
        x, i := ParseExprInside(fuel);
        if x != Fine { return; }
        tok := TokNext();
        e := IndexOf(left, i);
      }
    }

    method ParseMath(left: Tree, fuel: nat) returns (x: End, e: Tree)
      modifies this
      ensures Gave(x, e, MathSuffix(toks, left, old(sel), fuel))
      decreases fuel, 5
    {
      hide Parse;
      x, e := Fine, left;
      var tok := TokPeek();
      if tok.Math? {
        var op := tok.op;
        tok := TokNext();
        tok := TokNext();
        var right;
        x, right := ParseExprInside(fuel);
        e := Binary(op, left, right);
      }
    }

    method ParseAssign(left: Tree, fuel: nat) returns (x: End, e: Tree)
      modifies this
      ensures Gave(x, e, AssignSuffix(toks, left, old(sel), fuel))
      decreases fuel, 5
    {
      hide Parse;
      x, e := Fine, left;
      var tok := TokPeek();
      if tok == Assign {
        tok := TokNext();
        tok := TokNext();
        var right;
        x, right := ParseExprInside(fuel);
        e := Set(left, right);
      }
    }
  }

  /** The arguments so far in front of those still to come. */
  function Continued(sofar: seq<Tree>, p: Parsed<seq<Tree>>): Parsed<seq<Tree>> {
    match p
    case Done(es, c) => Done(sofar + es, c)
    case o => o
  }

  lemma ContinuedNone(p: Parsed<seq<Tree>>)
    ensures Continued([], p) == p
  {
    if p.Done? {
      assert [] + p.v == p.v;
    }
  }

  lemma ContinuedMore(sofar: seq<Tree>, e: Tree, p: Parsed<seq<Tree>>)
    ensures Continued(sofar + [e], p) ==
            match p
            case Done(es, c) => Done(sofar + ([e] + es), c)
            case o => o
  {
    if p.Done? {
      assert sofar + [e] + p.v == sofar + ([e] + p.v);
    }
  }
}
