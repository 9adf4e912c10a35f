/**
  What the calculator does with particular inputs: the two sample inputs of
  the playground, and the shapes that show associativity and precedence.
*/
module CalcExamples {
  import opened Wrappers
  import opened CalcTokens
  import opened CalcParser
  import opened CalcSyntax
  import Arith
  import Grammar
  import Decimal

  /** Operators of one level associate to the left: `x - y - z` is
      `(x - y) - z` for any operands that are numbers, products or
      parenthesised expressions. */
  lemma SubtractionAssociatesLeft(ops: Arith.Ops, x: Expr, y: Expr, z: Expr)
    requires WellFormed(x) && WellFormed(y) && WellFormed(z)
    requires Prec(x) >= 1 && Prec(y) >= 1 && Prec(z) >= 1
    ensures ParseExpression(ops, Render(x) + [Fixed(Minus)] + Render(y) + [Fixed(Minus)] + Render(z))
            == Some((ops.sub(ops.sub(Value(ops, x), Value(ops, y)), Value(ops, z)), []))
  {
    var e := Bin(SubOp, Bin(SubOp, x, y), z);
    assert Render(e) + [] == Render(x) + [Fixed(Minus)] + Render(y) + [Fixed(Minus)] + Render(z);
    ExpressionSound(ops, e, []);
  }

  /** `a - b - c` on three numbers is not `a - (b - c)`. */
  lemma SubtractionIsNotRightAssociative(a: Decimal.pos, b: Decimal.pos, c: Decimal.pos)
    ensures ParseExpression(Arith.Js, [NumberToken(a), Fixed(Minus), NumberToken(b), Fixed(Minus), NumberToken(c)])
            == Some((Arith.Finite(a as real - b as real - c as real), []))
    ensures ParseExpression(Arith.Js, [NumberToken(a), Fixed(Minus), NumberToken(b), Fixed(Minus), NumberToken(c)])
            != Some((Arith.Finite(a as real - (b as real - c as real)), []))
  {
    SubtractionAssociatesLeft(Arith.Js, Lit(a), Lit(b), Lit(c));
    assert [NumberToken(a)] + [Fixed(Minus)] + [NumberToken(b)] + [Fixed(Minus)] + [NumberToken(c)]
        == [NumberToken(a), Fixed(Minus), NumberToken(b), Fixed(Minus), NumberToken(c)];
  }

  /** `x / y / z` is `(x / y) / z` when `x` is a product or tighter and `y`
      and `z` are numbers or parenthesised expressions. */
  lemma DivisionAssociatesLeft(ops: Arith.Ops, x: Expr, y: Expr, z: Expr)
    requires WellFormed(x) && WellFormed(y) && WellFormed(z)
    requires Prec(x) >= 1 && Prec(y) == 2 && Prec(z) == 2
    ensures ParseExpression(ops, Render(x) + [Fixed(Div)] + Render(y) + [Fixed(Div)] + Render(z))
            == Some((ops.div(ops.div(Value(ops, x), Value(ops, y)), Value(ops, z)), []))
  {
    var e := Bin(DivOp, Bin(DivOp, x, y), z);
    assert Render(e) + [] == Render(x) + [Fixed(Div)] + Render(y) + [Fixed(Div)] + Render(z);
    ExpressionSound(ops, e, []);
  }

  /** Multiplication binds tighter than addition, on either side. */
  lemma MultiplicationBindsTighter(ops: Arith.Ops, x: Expr, y: Expr, z: Expr)
    requires WellFormed(x) && WellFormed(y) && WellFormed(z)
    requires Prec(x) == 2 && Prec(y) == 2 && Prec(z) == 2
    ensures ParseExpression(ops, Render(x) + [Fixed(Plus)] + Render(y) + [Fixed(Multi)] + Render(z))
            == Some((ops.add(Value(ops, x), ops.mul(Value(ops, y), Value(ops, z))), []))
    ensures ParseExpression(ops, Render(x) + [Fixed(Multi)] + Render(y) + [Fixed(Plus)] + Render(z))
            == Some((ops.add(ops.mul(Value(ops, x), Value(ops, y)), Value(ops, z)), []))
  {
    var e1 := Bin(AddOp, x, Bin(MulOp, y, z));
    assert Render(e1) + [] == Render(x) + [Fixed(Plus)] + Render(y) + [Fixed(Multi)] + Render(z);
    ExpressionSound(ops, e1, []);
    var e2 := Bin(AddOp, Bin(MulOp, x, y), z);
    assert Render(e2) + [] == Render(x) + [Fixed(Multi)] + Render(y) + [Fixed(Plus)] + Render(z);
    ExpressionSound(ops, e2, []);
  }

  /** The sample "2 * ( 3 + 7)" as the parser receives it. */
  const ParenthesisSample: seq<Token> :=
    [RawToken(NumberLiteral, "2"), Fixed(Multi), Fixed(LParen), RawToken(NumberLiteral, "3"),
     Fixed(Plus), RawToken(NumberLiteral, "7"), Fixed(RParen)]

  /** The sample "2 + 4 * 5 / 10" as the parser receives it. */
  const PrecedenceSample: seq<Token> :=
    [RawToken(NumberLiteral, "2"), Fixed(Plus), RawToken(NumberLiteral, "4"), Fixed(Multi),
     RawToken(NumberLiteral, "5"), Fixed(Div), RawToken(NumberLiteral, "10")]

  /** The tree "2 * ( 3 + 7)" writes down. */
  const ParenthesisTree: Expr := Bin(MulOp, Lit(2), Paren(Bin(AddOp, Lit(3), Lit(7))))

  /** The tree "2 + 4 * 5 / 10" writes down. */
  const PrecedenceTree: Expr := Bin(AddOp, Lit(2), Bin(DivOp, Bin(MulOp, Lit(4), Lit(5)), Lit(10)))

  lemma ParenthesisTreeValue()
    ensures Value(Arith.Js, ParenthesisTree) == Arith.Finite(20.0)
  {
    var sum := Bin(AddOp, Lit(3), Lit(7));
    assert Value(Arith.Js, sum) == Arith.Add(Arith.Finite(3.0), Arith.Finite(7.0)) == Arith.Finite(10.0);
    assert Value(Arith.Js, Paren(sum)) == Arith.Finite(10.0);
    assert Value(Arith.Js, ParenthesisTree) == Arith.Mul(Arith.Finite(2.0), Arith.Finite(10.0));
  }

  lemma PrecedenceTreeValue()
    ensures Value(Arith.Js, PrecedenceTree) == Arith.Finite(4.0)
  {
    var product := Bin(MulOp, Lit(4), Lit(5));
    assert Value(Arith.Js, product) == Arith.Mul(Arith.Finite(4.0), Arith.Finite(5.0)) == Arith.Finite(20.0);
    var quotient := Bin(DivOp, product, Lit(10));
    assert Value(Arith.Js, quotient) == Arith.Divide(Arith.Finite(20.0), Arith.Finite(10.0)) == Arith.Finite(2.0);
    assert Value(Arith.Js, PrecedenceTree) == Arith.Add(Arith.Finite(2.0), Arith.Finite(2.0));
  }

  /** Parentheses first: "2 * ( 3 + 7)" is 20. */
  lemma ParenthesisPrecedence()
    ensures ParseExpression(Arith.Js, ParenthesisSample) == Some((Arith.Finite(20.0), []))
  {
    assert NumberToken(2) == RawToken(NumberLiteral, "2");
    assert NumberToken(3) == RawToken(NumberLiteral, "3");
    assert NumberToken(7) == RawToken(NumberLiteral, "7");
    assert ParenthesisSample == Render(ParenthesisTree) + [];
    ExpressionSound(Arith.Js, ParenthesisTree, []);
    ParenthesisTreeValue();
  }

  /** Multiplication and division before addition, left to right:
      "2 + 4 * 5 / 10" is 4. */
  lemma OperatorPrecedence()
    ensures ParseExpression(Arith.Js, PrecedenceSample) == Some((Arith.Finite(4.0), []))
  {
    assert NumberToken(2) == RawToken(NumberLiteral, "2");
    assert NumberToken(4) == RawToken(NumberLiteral, "4");
    assert NumberToken(5) == RawToken(NumberLiteral, "5");
    assert NumberToken(10) == RawToken(NumberLiteral, "10");
    assert PrecedenceSample == Render(PrecedenceTree) + [];
    ExpressionSound(Arith.Js, PrecedenceTree, []);
    PrecedenceTreeValue();
  }

  /** One blank, as the lexer reads it. */
  const Blank: Token := RawToken(WhiteSpace, " ")

  /** A token followed by a blank reaches the parser without the blank. */
  lemma SkipBlankAfter(t: Token, rest: seq<Token>)
    requires t.cls != WhiteSpace
    ensures ParserInput([t, Blank] + rest) == [t] + ParserInput(rest)
  {
    Grammar.UnskippedAppend([t, Blank], rest, IsSkipped);
    assert [t, Blank][1..] == [Blank];
    assert [Blank][1..] == [];
    assert Grammar.Unskipped([Blank], IsSkipped) == [];
    assert Grammar.Unskipped([t, Blank], IsSkipped) == [t];
  }

  /** `toks` as typed with one blank between each two of them. */
  function Spaced(toks: seq<Token>): (r: seq<Token>)
    ensures |toks| > 0 ==> |r| == 2 * |toks| - 1
  {
    if |toks| <= 1 then toks else [toks[0], Blank] + Spaced(toks[1..])
  }

  /** The lexer's blanks between tokens never reach the parser. */
  lemma {:induction false} SpacedSkipped(toks: seq<Token>)
    requires forall i :: 0 <= i < |toks| ==> toks[i].cls != WhiteSpace
    ensures ParserInput(Spaced(toks)) == toks
  {
    if |toks| <= 1 {
      Grammar.UnskippedKeepsClean(toks, IsSkipped);
    } else {
      SpacedSkipped(toks[1..]);
      SkipBlankAfter(toks[0], Spaced(toks[1..]));
      assert toks == [toks[0]] + toks[1..];
    }
  }

  /** The playground's sample "2 + 4 * 5 / 10" as typed, a blank between
      each two tokens, calculates to 4. */
  lemma PrecedenceSampleTyped(lexed: seq<Token>)
    requires lexed == Spaced(PrecedenceSample)
    ensures Calculate(lexed) == Some((Arith.Finite(4.0), []))
  {
    SpacedSkipped(PrecedenceSample);
    OperatorPrecedence();
  }

  /** The playground's sample "2 * ( 3 + 7)" as typed, a blank between each
      two tokens but the last two, calculates to 20. */
  lemma ParenthesisSampleTyped(lexed: seq<Token>)
    requires lexed == Spaced(ParenthesisSample[..6]) + [Fixed(RParen)]
    ensures Calculate(lexed) == Some((Arith.Finite(20.0), []))
  {
    var open := ParenthesisSample[..6];
    SpacedSkipped(open);
    Grammar.UnskippedAppend(Spaced(open), [Fixed(RParen)], IsSkipped);
    Grammar.UnskippedKeepsClean([Fixed(RParen)], IsSkipped);
    assert open + [Fixed(RParen)] == ParenthesisSample;
    ParenthesisPrecedence();
  }
}
