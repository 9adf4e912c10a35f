/**
  The calculator grammar as LL(1) recursive descent that computes while it
  parses:

    expression               := additionExpression
    additionExpression       := multiplicationExpression
                                (AdditionOperator multiplicationExpression)*
    multiplicationExpression := atomicExpression
                                (MultiplicationOperator atomicExpression)*
    atomicExpression         := parenthesisExpression | NumberLiteral
    parenthesisExpression    := `(` expression `)`

  Each MANY loop folds its operands into the running value from the left
  (`AddTail`, `MulTail`), so operators of one level associate to the left,
  and a level binds tighter the further down the chain it is.  Consuming a
  token class accepts any token of a class that extends it.  The four
  operations the embedded actions apply are the parameter `ops`; the
  playground's are `Arith.Js`.
*/
module CalcParser {
  import opened Wrappers
  import opened CalcTokens
  import Grammar
  import Decimal
  import Arith

  /** The outcome of a rule: the value it computed and the tokens after it. */
  type Parsed = Option<(Arith.Num, seq<Token>)>

  /** CONSUME's test: the next token is an instance of class `c`. */
  predicate NextIsA(toks: seq<Token>, c: TokenClass)
  {
    |toks| > 0 && IsA(toks[0].cls, c)
  }

  /** The FIRST sets of the two alternatives of `atomicExpression`. */
  const AtomFirsts: seq<set<TokenClass>> := [{LParen}, {NumberLiteral}]

  /** The value `parseInt` gives a number token. */
  function LiteralValue(t: Token): (v: Arith.Num)
    requires t.cls == NumberLiteral
    ensures v.Finite? && v.r >= 1.0
  {
    Decimal.ParsePositive(t.image);
    Arith.Finite(Decimal.ParseInt(t.image) as real)
  }

  /** Rule `expression`. */
  function ParseExpression(ops: Arith.Ops, toks: seq<Token>): (r: Parsed)
    ensures r.Some? ==> Grammar.Consumed(toks, r.value.1)
    ensures r.Some? ==> !NextIsA(r.value.1, AdditionOperator) && !NextIsA(r.value.1, MultiplicationOperator)
    decreases |toks|, 4
  {
    ParseAdd(ops, toks)
  }

  /** Rule `additionExpression`. */
  function ParseAdd(ops: Arith.Ops, toks: seq<Token>): (r: Parsed)
    ensures r.Some? ==> Grammar.Consumed(toks, r.value.1)
    ensures r.Some? ==> !NextIsA(r.value.1, AdditionOperator) && !NextIsA(r.value.1, MultiplicationOperator)
    decreases |toks|, 3
  {
    match ParseMul(ops, toks)
    case None => None
    case Some((v, rest)) =>
      var r := AddTail(ops, rest, v);
      Grammar.SuffixChain(r, rest, toks);
      r
  }

  /** The MANY loop of `additionExpression`: while the next token is an
      addition operator, consume it and one more operand, and add it to
      `acc` if the operator is a `Plus`, else subtract it. */
  function AddTail(ops: Arith.Ops, toks: seq<Token>, acc: Arith.Num): (r: Parsed)
    ensures r.Some? ==> Grammar.Suffix(r.value.1, toks) && !NextIsA(r.value.1, AdditionOperator)
    ensures r.Some? && !NextIsA(toks, MultiplicationOperator) ==> !NextIsA(r.value.1, MultiplicationOperator)
    decreases |toks|, 0
  {
    if NextIsA(toks, AdditionOperator) then
      match ParseMul(ops, toks[1..])
      case None => None
      case Some((rhs, rest)) =>
        var r := AddTail(ops, rest, if toks[0].cls == Plus then ops.add(acc, rhs) else ops.sub(acc, rhs));
        Grammar.SuffixChain(r, rest, toks);
        r
    else Some((acc, toks))
  }

  /** Rule `multiplicationExpression`. */
  function ParseMul(ops: Arith.Ops, toks: seq<Token>): (r: Parsed)
    ensures r.Some? ==> Grammar.Consumed(toks, r.value.1)
    ensures r.Some? ==> !NextIsA(r.value.1, MultiplicationOperator)
    decreases |toks|, 2
  {
    match ParseAtom(ops, toks)
    case None => None
    case Some((v, rest)) =>
      var r := MulTail(ops, rest, v);
      Grammar.SuffixChain(r, rest, toks);
      r
  }

  /** The MANY loop of `multiplicationExpression`: while the next token is a
      multiplication operator, consume it and one more operand, and
      multiply `acc` by it if the operator is a `Multi`, else divide. */
  function MulTail(ops: Arith.Ops, toks: seq<Token>, acc: Arith.Num): (r: Parsed)
    ensures r.Some? ==> Grammar.Suffix(r.value.1, toks) && !NextIsA(r.value.1, MultiplicationOperator)
    decreases |toks|, 0
  {
    if NextIsA(toks, MultiplicationOperator) then
      match ParseAtom(ops, toks[1..])
      case None => None
      case Some((rhs, rest)) =>
        var r := MulTail(ops, rest, if toks[0].cls == Multi then ops.mul(acc, rhs) else ops.div(acc, rhs));
        Grammar.SuffixChain(r, rest, toks);
        r
    else Some((acc, toks))
  }

  /** Rule `atomicExpression`: OR of a parenthesised expression and a
      number, chosen by the next token. */
  function ParseAtom(ops: Arith.Ops, toks: seq<Token>): (r: Parsed)
    ensures r.Some? ==> Grammar.Consumed(toks, r.value.1)
    ensures r.Some? ==> toks[0].cls == LParen || toks[0].cls == NumberLiteral
    decreases |toks|, 1
  {
    if |toks| == 0 then None
    else match Grammar.FirstMatch(AtomFirsts, toks[0].cls)
      case None => None
      case Some(alt) =>
        if alt == 0 then ParseParen(ops, toks)
        else Some((LiteralValue(toks[0]), toks[1..]))
  }

  /** Rule `parenthesisExpression`: the value of the enclosed expression. */
  function ParseParen(ops: Arith.Ops, toks: seq<Token>): (r: Parsed)
    ensures r.Some? ==> Grammar.Consumed(toks, r.value.1) && toks[0].cls == LParen
    decreases |toks|, 0
  {
    if !NextIsA(toks, LParen) then None
    else match ParseExpression(ops, toks[1..])
      case None => None
      case Some((v, rest)) =>
        if NextIsA(rest, RParen) then Some((v, rest[1..])) else None
  }

  /** The playground's default rule, run with JavaScript's arithmetic on the
      lexer's output once the skipped white space is gone.  Input that is
      only white space is rejected; on success at least one token is
      consumed, and what is left are tokens of the input, none of them white
      space, and not an operator first. */
  function Calculate(lexed: seq<Token>): (r: Parsed)
    ensures (forall i :: 0 <= i < |lexed| ==> lexed[i].cls == WhiteSpace) ==> r.None?
    ensures r.Some? ==> |r.value.1| < |lexed|
    ensures r.Some? ==> forall i :: 0 <= i < |r.value.1| ==>
                          r.value.1[i] in lexed && r.value.1[i].cls != WhiteSpace
    ensures r.Some? ==> !NextIsA(r.value.1, AdditionOperator) && !NextIsA(r.value.1, MultiplicationOperator)
  {
    var input := ParserInput(lexed);
    var r := ParseExpression(Arith.Js, input);
    assert |input| > 0 ==> input[0] in lexed && input[0].cls != WhiteSpace;
    assert r.Some? ==> forall i :: 0 <= i < |r.value.1| ==> r.value.1[i] == input[|input| - |r.value.1| + i];
    r
  }

  /** White space anywhere in the lexed input does not change the result. */
  lemma WhiteSpaceIgnored(a: seq<Token>, t: Token, b: seq<Token>)
    requires t.cls == WhiteSpace
    ensures Calculate(a + [t] + b) == Calculate(a + b)
  {
    Grammar.UnskippedIgnoresSkipped(a, t, b, IsSkipped);
  }

  /** Input without white space reaches the `expression` rule unchanged. */
  lemma CleanInputUnchanged(lexed: seq<Token>)
    requires forall i :: 0 <= i < |lexed| ==> lexed[i].cls != WhiteSpace
    ensures Calculate(lexed) == ParseExpression(Arith.Js, lexed)
  {
    Grammar.UnskippedKeepsClean(lexed, IsSkipped);
  }
}
