/**
  What the calculator grammar means, stated independently of the parser:
  an expression tree, its value computed bottom-up, and the token sequence
  that writes it down.  A tree is `WellFormed` when writing it down needs no
  parentheses other than the ones it records: the left operand of an
  operator binds at least as tightly as the operator, the right operand
  strictly more tightly.  The parser accepts exactly the token sequences
  that write down a well-formed tree, and computes the value of such a tree
  (`ExpressionSound`, `ExpressionComplete`), which is what "multiplication before addition,
  parentheses first, left to right within a level" means.
*/
module CalcSyntax {
  import opened Wrappers
  import opened CalcTokens
  import opened CalcParser
  import Arith
  import Decimal
  import Grammar
  import SeqFacts

  datatype Op = AddOp | SubOp | MulOp | DivOp

  /** An arithmetic expression; `Paren` is a pair of parentheses written
      around its operand. */
  datatype Expr =
    | Lit(n: Decimal.pos)
    | Paren(inner: Expr)
    | Bin(op: Op, left: Expr, right: Expr)

  /** The token class that writes an operator. */
  function OpClass(op: Op): TokenClass
  {
    match op
    case AddOp => Plus
    case SubOp => Minus
    case MulOp => Multi
    case DivOp => Div
  }

  /** The operator an operator token writes. */
  function OpOf(c: TokenClass): Op
  {
    match c
    case Plus => AddOp
    case Minus => SubOp
    case Multi => MulOp
    case _ => DivOp
  }

  function Apply(ops: Arith.Ops, op: Op, a: Arith.Num, b: Arith.Num): Arith.Num
  {
    match op
    case AddOp => ops.add(a, b)
    case SubOp => ops.sub(a, b)
    case MulOp => ops.mul(a, b)
    case DivOp => ops.div(a, b)
  }

  /** The value of an expression, operands before operators. */
  function Value(ops: Arith.Ops, e: Expr): Arith.Num
  {
    match e
    case Lit(n) => Arith.Finite(n as real)
    case Paren(inner) => Value(ops, inner)
    case Bin(op, l, r) => Apply(ops, op, Value(ops, l), Value(ops, r))
  }

  /** How tightly an expression binds: sums 0, products 1, numbers and
      parenthesised expressions 2. */
  function Prec(e: Expr): nat
  {
    match e
    case Bin(op, _, _) => if op == AddOp || op == SubOp then 0 else 1
    case _ => 2
  }

  /** Every operator's left operand binds at least as tightly as the
      operator and its right operand more tightly. */
  predicate WellFormed(e: Expr)
  {
    match e
    case Lit(_) => true
    case Paren(inner) => WellFormed(inner)
    case Bin(_, l, r) => WellFormed(l) && WellFormed(r) && Prec(l) >= Prec(e) && Prec(r) > Prec(e)
  }

  /** The tokens that write `e` down, with the parentheses it records. */
  function Render(e: Expr): (toks: seq<Token>)
    ensures |toks| > 0
  {
    match e
    case Lit(n) => [NumberToken(n)]
    case Paren(inner) => [Fixed(LParen)] + Render(inner) + [Fixed(RParen)]
    case Bin(op, l, r) => Render(l) + [Fixed(OpClass(op))] + Render(r)
  }

  /** `e` with every recorded pair of parentheses dropped: the bare tree. */
  function Strip(e: Expr): Expr
  {
    match e
    case Lit(_) => e
    case Paren(inner) => Strip(inner)
    case Bin(op, l, r) => Bin(op, Strip(l), Strip(r))
  }

  /** `e`, parenthesised if it binds less tightly than `p` demands. */
  function AtLeast(e: Expr, p: nat): Expr
  {
    if Prec(e) >= p then e else Paren(e)
  }

  /** Parentheses added exactly where an operand binds too loosely for its
      place: the way to write a tree down so that the grammar reads it
      back as that tree. */
  function Bracket(e: Expr): (b: Expr)
    ensures WellFormed(b)
    ensures Strip(b) == Strip(e)
  {
    match e
    case Lit(_) => e
    case Paren(inner) => Paren(Bracket(inner))
    case Bin(op, l, r) =>
      var p := Prec(e);
      Bin(op, AtLeast(Bracket(l), p), AtLeast(Bracket(r), p + 1))
  }

  /** A well-formed tree needs no more parentheses. */
  lemma {:induction false} BracketWellFormed(e: Expr)
    requires WellFormed(e)
    ensures Bracket(e) == e
  {
    match e
    case Lit(_) =>
    case Paren(inner) => BracketWellFormed(inner);
    case Bin(_, l, r) => BracketWellFormed(l); BracketWellFormed(r);
  }

  /** Parentheses do not change the value. */
  lemma {:induction false} BracketValue(ops: Arith.Ops, e: Expr)
    ensures Value(ops, Bracket(e)) == Value(ops, e)
  {
    match e
    case Lit(_) =>
    case Paren(inner) => BracketValue(ops, inner);
    case Bin(_, l, r) => BracketValue(ops, l); BracketValue(ops, r);
  }

  // ---------------------------------------------------------------------
  // Writing a well-formed tree down and parsing it gives its value

  /** A literal is read back as its number. */
  lemma LiteralSound(ops: Arith.Ops, n: Decimal.pos, rest: seq<Token>)
    requires WellFormed(Lit(n))
    ensures ParseAtom(ops, Render(Lit(n)) + rest) == Some((Value(ops, Lit(n)), rest))
  {
    SeqFacts.DropHead(NumberToken(n), rest);
    assert Grammar.FirstMatch(AtomFirsts, NumberLiteral) == Some(1);
  }

  /** A parenthesised tree is read back as the value of what it encloses. */
  lemma {:induction false} ParenSound(ops: Arith.Ops, inner: Expr, rest: seq<Token>)
    requires WellFormed(Paren(inner))
    ensures ParseParen(ops, Render(Paren(inner)) + rest) == Some((Value(ops, inner), rest))
    decreases Paren(inner), 0
  {
    var close := [Fixed(RParen)] + rest;
    SeqFacts.TailOfCons(Fixed(LParen), Render(inner), [Fixed(RParen)], rest);
    SeqFacts.DropHead(Fixed(RParen), rest);
    ExpressionSound(ops, inner, close);
  }

  lemma {:induction false} AtomSound(ops: Arith.Ops, e: Expr, rest: seq<Token>)
    requires WellFormed(e) && Prec(e) == 2
    ensures ParseAtom(ops, Render(e) + rest) == Some((Value(ops, e), rest))
    decreases e, 1
  {
    match e
    case Lit(n) =>
      LiteralSound(ops, n, rest);
    case Paren(inner) =>
      ParenSound(ops, inner, rest);
      assert Grammar.FirstMatch(AtomFirsts, LParen) == Some(0);
  }

  /** Operator tokens and operators correspond one to one. */
  lemma OperatorToken(t: Token)
    requires IsA(t.cls, AdditionOperator) || IsA(t.cls, MultiplicationOperator)
    ensures t == Fixed(OpClass(OpOf(t.cls)))
    ensures IsA(t.cls, AdditionOperator) <==> OpOf(t.cls) == AddOp || OpOf(t.cls) == SubOp
  {
    OperatorCategories(t);
    FixedIsOnlyToken(t);
  }

  lemma OpToken(op: Op)
    ensures OpOf(OpClass(op)) == op
    ensures IsA(OpClass(op), AdditionOperator) <==> op == AddOp || op == SubOp
    ensures IsA(OpClass(op), MultiplicationOperator) <==> op == MulOp || op == DivOp
  {
  }

  /** One round of the MANY loop of `multiplicationExpression`. */
  lemma MulTailStep(ops: Arith.Ops, toks: seq<Token>, acc: Arith.Num)
    requires NextIsA(toks, MultiplicationOperator)
    ensures ParseAtom(ops, toks[1..]).None? ==> MulTail(ops, toks, acc).None?
    ensures ParseAtom(ops, toks[1..]).Some? ==>
              var (rhs, rest) := ParseAtom(ops, toks[1..]).value;
              MulTail(ops, toks, acc) == MulTail(ops, rest, Apply(ops, OpOf(toks[0].cls), acc, rhs))
  {
    OperatorCategories(toks[0]);
    if ParseAtom(ops, toks[1..]).Some? {
      var (rhs, rest) := ParseAtom(ops, toks[1..]).value;
      assert Apply(ops, OpOf(toks[0].cls), acc, rhs) ==
             if toks[0].cls == Multi then ops.mul(acc, rhs) else ops.div(acc, rhs);
    }
  }

  /** One round of the MANY loop of `additionExpression`. */
  lemma AddTailStep(ops: Arith.Ops, toks: seq<Token>, acc: Arith.Num)
    requires NextIsA(toks, AdditionOperator)
    ensures ParseMul(ops, toks[1..]).None? ==> AddTail(ops, toks, acc).None?
    ensures ParseMul(ops, toks[1..]).Some? ==>
              var (rhs, rest) := ParseMul(ops, toks[1..]).value;
              AddTail(ops, toks, acc) == AddTail(ops, rest, Apply(ops, OpOf(toks[0].cls), acc, rhs))
  {
    OperatorCategories(toks[0]);
    if ParseMul(ops, toks[1..]).Some? {
      var (rhs, rest) := ParseMul(ops, toks[1..]).value;
      assert Apply(ops, OpOf(toks[0].cls), acc, rhs) ==
             if toks[0].cls == Plus then ops.add(acc, rhs) else ops.sub(acc, rhs);
    }
  }

  lemma {:induction false} MulSound(ops: Arith.Ops, e: Expr, rest: seq<Token>)
    requires WellFormed(e) && Prec(e) >= 1
    ensures ParseMul(ops, Render(e) + rest) == MulTail(ops, rest, Value(ops, e))
    decreases e, 2
  {
    if Prec(e) == 2 {
      AtomSound(ops, e, rest);
    } else {
      var Bin(op, l, r) := e;
      var t := Fixed(OpClass(op));
      SeqFacts.Regroup(Render(l), t, Render(r), rest);
      MulSound(ops, l, [t] + (Render(r) + rest));
      SeqFacts.DropHead(t, Render(r) + rest);
      OpToken(op);
      MulTailStep(ops, [t] + (Render(r) + rest), Value(ops, l));
      AtomSound(ops, r, rest);
    }
  }

  lemma {:induction false} AddSound(ops: Arith.Ops, e: Expr, rest: seq<Token>)
    requires WellFormed(e)
    requires !NextIsA(rest, MultiplicationOperator)
    ensures ParseAdd(ops, Render(e) + rest) == AddTail(ops, rest, Value(ops, e))
    decreases e, 3
  {
    if Prec(e) >= 1 {
      MulSound(ops, e, rest);
    } else {
      var Bin(op, l, r) := e;
      var t := Fixed(OpClass(op));
      SeqFacts.Regroup(Render(l), t, Render(r), rest);
      AddSound(ops, l, [t] + (Render(r) + rest));
      SeqFacts.DropHead(t, Render(r) + rest);
      OpToken(op);
      AddTailStep(ops, [t] + (Render(r) + rest), Value(ops, l));
      MulSound(ops, r, rest);
    }
  }

  /** Soundness: a well-formed tree written down, followed by anything that
      does not continue it, is read back with the tree's value. */
  lemma {:induction false} ExpressionSound(ops: Arith.Ops, e: Expr, rest: seq<Token>)
    requires WellFormed(e)
    requires !NextIsA(rest, AdditionOperator) && !NextIsA(rest, MultiplicationOperator)
    ensures ParseExpression(ops, Render(e) + rest) == Some((Value(ops, e), rest))
    decreases e, 4
  {
    AddSound(ops, e, rest);
  }

  // ---------------------------------------------------------------------
  // Whatever parses is a well-formed tree written down

  lemma {:induction false} AtomComplete(ops: Arith.Ops, toks: seq<Token>) returns (e: Expr)
    requires ParseAtom(ops, toks).Some?
    ensures WellFormed(e) && Prec(e) == 2
    ensures toks == Render(e) + ParseAtom(ops, toks).value.1
    ensures ParseAtom(ops, toks).value.0 == Value(ops, e)
    decreases |toks|, 1
  {
    var rest := ParseAtom(ops, toks).value.1;
    if toks[0].cls == NumberLiteral {
      assert Grammar.FirstMatch(AtomFirsts, NumberLiteral) == Some(1);
      NumberTokenOfValue(toks[0]);
      e := Lit(Decimal.ParseInt(toks[0].image));
      SeqFacts.SplitHead(toks);
    } else {
      assert Grammar.FirstMatch(AtomFirsts, LParen) == Some(0);
      FixedIsOnlyToken(toks[0]);
      var inner := ExpressionComplete(ops, toks[1..]);
      var close := ParseExpression(ops, toks[1..]).value.1;
      FixedIsOnlyToken(close[0]);
      SeqFacts.SplitHead(close);
      SeqFacts.Rebuild(toks, Fixed(LParen), Render(inner), [Fixed(RParen)], close, rest);
      e := Paren(inner);
    }
  }

  lemma {:induction false} MulComplete(ops: Arith.Ops, toks: seq<Token>) returns (e: Expr)
    requires ParseMul(ops, toks).Some?
    ensures WellFormed(e) && Prec(e) >= 1
    ensures toks == Render(e) + ParseMul(ops, toks).value.1
    ensures ParseMul(ops, toks).value.0 == Value(ops, e)
    decreases |toks|, 2
  {
    var atom := AtomComplete(ops, toks);
    var rest := ParseAtom(ops, toks).value.1;
    assert ParseMul(ops, toks) == MulTail(ops, rest, Value(ops, atom));
    e := MulTailComplete(ops, rest, atom);
  }

  /** One round of the MANY loop read back as one more operator node. */
  lemma MulRound(ops: Arith.Ops, toks: seq<Token>, acc: Expr) returns (next: Expr, after: seq<Token>)
    requires WellFormed(acc) && Prec(acc) >= 1
    requires NextIsA(toks, MultiplicationOperator) && MulTail(ops, toks, Value(ops, acc)).Some?
    ensures WellFormed(next) && Prec(next) == 1
    ensures |after| < |toks|
    ensures MulTail(ops, toks, Value(ops, acc)) == MulTail(ops, after, Value(ops, next))
    ensures Render(acc) + toks == Render(next) + after
    decreases |toks|, 0
  {
    MulTailStep(ops, toks, Value(ops, acc));
    OperatorToken(toks[0]);
    var op := OpOf(toks[0].cls);
    var rhs := AtomComplete(ops, toks[1..]);
    after := ParseAtom(ops, toks[1..]).value.1;
    next := Bin(op, acc, rhs);
    assert Render(acc) + toks == Render(next) + after by {
      SeqFacts.SplitHead(toks);
      SeqFacts.Regroup(Render(acc), toks[0], Render(rhs), after);
    }
  }

  lemma {:induction false} MulTailComplete(ops: Arith.Ops, toks: seq<Token>, acc: Expr) returns (e: Expr)
    requires WellFormed(acc) && Prec(acc) >= 1
    requires MulTail(ops, toks, Value(ops, acc)).Some?
    ensures WellFormed(e) && Prec(e) >= 1
    ensures Render(acc) + toks == Render(e) + MulTail(ops, toks, Value(ops, acc)).value.1
    ensures MulTail(ops, toks, Value(ops, acc)).value.0 == Value(ops, e)
    decreases |toks|, 1
  {
    if !NextIsA(toks, MultiplicationOperator) {
      e := acc;
    } else {
      var next, after := MulRound(ops, toks, acc);
      e := MulTailComplete(ops, after, next);
    }
  }

  lemma {:induction false} AddComplete(ops: Arith.Ops, toks: seq<Token>) returns (e: Expr)
    requires ParseAdd(ops, toks).Some?
    ensures WellFormed(e)
    ensures toks == Render(e) + ParseAdd(ops, toks).value.1
    ensures ParseAdd(ops, toks).value.0 == Value(ops, e)
    decreases |toks|, 3
  {
    var term := MulComplete(ops, toks);
    var rest := ParseMul(ops, toks).value.1;
    e := AddTailComplete(ops, rest, term);
  }

  /** One round of the MANY loop read back as one more operator node. */
  lemma AddRound(ops: Arith.Ops, toks: seq<Token>, acc: Expr) returns (next: Expr, after: seq<Token>)
    requires WellFormed(acc)
    requires NextIsA(toks, AdditionOperator) && AddTail(ops, toks, Value(ops, acc)).Some?
    ensures WellFormed(next) && Prec(next) == 0
    ensures |after| < |toks|
    ensures AddTail(ops, toks, Value(ops, acc)) == AddTail(ops, after, Value(ops, next))
    ensures Render(acc) + toks == Render(next) + after
    decreases |toks|, 0
  {
    AddTailStep(ops, toks, Value(ops, acc));
    OperatorToken(toks[0]);
    var op := OpOf(toks[0].cls);
    var rhs := MulComplete(ops, toks[1..]);
    after := ParseMul(ops, toks[1..]).value.1;
    next := Bin(op, acc, rhs);
    assert Render(acc) + toks == Render(next) + after by {
      SeqFacts.SplitHead(toks);
      SeqFacts.Regroup(Render(acc), toks[0], Render(rhs), after);
    }
  }

  lemma {:induction false} AddTailComplete(ops: Arith.Ops, toks: seq<Token>, acc: Expr) returns (e: Expr)
    requires WellFormed(acc)
    requires AddTail(ops, toks, Value(ops, acc)).Some?
    ensures WellFormed(e)
    ensures Render(acc) + toks == Render(e) + AddTail(ops, toks, Value(ops, acc)).value.1
    ensures AddTail(ops, toks, Value(ops, acc)).value.0 == Value(ops, e)
    decreases |toks|, 1
  {
    if !NextIsA(toks, AdditionOperator) {
      e := acc;
    } else {
      var next, after := AddRound(ops, toks, acc);
      e := AddTailComplete(ops, after, next);
    }
  }

  /** Completeness: whatever the parser accepts is a well-formed tree
      written down, and the parser's result is that tree's value. */
  lemma {:induction false} ExpressionComplete(ops: Arith.Ops, toks: seq<Token>) returns (e: Expr)
    requires ParseExpression(ops, toks).Some?
    ensures WellFormed(e)
    ensures toks == Render(e) + ParseExpression(ops, toks).value.1
    ensures ParseExpression(ops, toks).value.0 == Value(ops, e)
    decreases |toks|, 4
  {
    e := AddComplete(ops, toks);
  }

  /** Any tree at all, written down with the parentheses `Bracket` adds, is
      read back with the tree's value. */
  lemma BracketParses(ops: Arith.Ops, e: Expr, rest: seq<Token>)
    requires !NextIsA(rest, AdditionOperator) && !NextIsA(rest, MultiplicationOperator)
    ensures ParseExpression(ops, Render(Bracket(e)) + rest) == Some((Value(ops, e), rest))
  {
    ExpressionSound(ops, Bracket(e), rest);
    BracketValue(ops, e);
  }
}
