/**
  The token vocabulary of the calculator grammar.  `AdditionOperator` and
  `MultiplicationOperator` are declared with the "not applicable" pattern:
  they exist only as categories that `Plus`/`Minus` and `Multi`/`Div`
  extend, and the lexer never produces a token of theirs.  Consuming a
  category consumes any token whose class extends it.
*/
module CalcTokens {
  import opened Wrappers
  import Grammar
  import Decimal

  datatype TokenClass =
    | AdditionOperator | Plus | Minus
    | MultiplicationOperator | Multi | Div
    | LParen | RParen
    | NumberLiteral
    | WhiteSpace

  /** The class a token class was declared to extend, if any. */
  function Parent(c: TokenClass): Option<TokenClass>
  {
    match c
    case Plus => Some(AdditionOperator)
    case Minus => Some(AdditionOperator)
    case Multi => Some(MultiplicationOperator)
    case Div => Some(MultiplicationOperator)
    case _ => None
  }

  /** Declared with the "not applicable" pattern: a category only. */
  predicate IsAbstract(c: TokenClass)
  {
    c == AdditionOperator || c == MultiplicationOperator
  }

  /** `instanceof`: `c` is `a` or extends it.  The hierarchy is one level
      deep, so a class's parent is its only proper ancestor. */
  predicate IsA(c: TokenClass, a: TokenClass)
  {
    c == a || Parent(c) == Some(a)
  }

  datatype RawToken = RawToken(cls: TokenClass, image: string)

  /** What the lexer guarantees of each token: the operators and
      parentheses have their one-character text, a number matches
      `[1-9]\d*`, white space is non-empty, and no token belongs to a
      category class. */
  predicate Lexable(t: RawToken)
  {
    match t.cls
    case AdditionOperator => false
    case MultiplicationOperator => false
    case Plus => t.image == "+"
    case Minus => t.image == "-"
    case Multi => t.image == "*"
    case Div => t.image == "/"
    case LParen => t.image == "("
    case RParen => t.image == ")"
    case NumberLiteral => Decimal.IsPositiveLiteral(t.image)
    case WhiteSpace => |t.image| > 0
  }

  type Token = t: RawToken | Lexable(t) witness RawToken(Plus, "+")

  /** The token of a class whose text is fixed. */
  function Fixed(c: TokenClass): (t: Token)
    requires c in {Plus, Minus, Multi, Div, LParen, RParen}
    ensures t.cls == c
  {
    match c
    case Plus => RawToken(Plus, "+")
    case Minus => RawToken(Minus, "-")
    case Multi => RawToken(Multi, "*")
    case Div => RawToken(Div, "/")
    case LParen => RawToken(LParen, "(")
    case RParen => RawToken(RParen, ")")
  }

  /** The number token whose image is the decimal numeral of `n`. */
  function NumberToken(n: Decimal.pos): (t: Token)
    ensures t.cls == NumberLiteral && Decimal.ParseInt(t.image) == n
  {
    Decimal.ParseShow(n);
    RawToken(NumberLiteral, Decimal.Show(n))
  }

  /** A class with fixed text has exactly one lexable token. */
  lemma FixedIsOnlyToken(t: Token)
    requires t.cls in {Plus, Minus, Multi, Div, LParen, RParen}
    ensures t == Fixed(t.cls)
  {
  }

  /** A number token is determined by its value. */
  lemma NumberTokenOfValue(t: Token)
    requires t.cls == NumberLiteral
    ensures Decimal.ParseInt(t.image) > 0
    ensures t == NumberToken(Decimal.ParseInt(t.image))
  {
    Decimal.ParsePositive(t.image);
    Decimal.ShowParse(t.image);
  }

  /** The category classes are exactly the classes the lexer has no token
      for. */
  lemma AbstractClassesHaveNoTokens(c: TokenClass)
    ensures IsAbstract(c) <==> forall t: Token :: t.cls != c
  {
    if !IsAbstract(c) {
      var t: Token :=
        if c == NumberLiteral then RawToken(NumberLiteral, "1")
        else if c == WhiteSpace then RawToken(WhiteSpace, " ")
        else Fixed(c);
      assert t.cls == c;
    }
  }

  /** Consuming `AdditionOperator` accepts exactly `+` and `-`; consuming
      `MultiplicationOperator` accepts exactly `*` and `/`. */
  lemma {:induction false} OperatorCategories(t: Token)
    ensures IsA(t.cls, AdditionOperator) <==> t.cls == Plus || t.cls == Minus
    ensures IsA(t.cls, MultiplicationOperator) <==> t.cls == Multi || t.cls == Div
  {
  }

  /** The `canTokenTypeBeInsertedInRecovery` predicate as written: every
      class but `NumberLiteral`.  The script attaches it to the calculator's
      prototype object and then replaces that object with a fresh one made
      from the library parser's prototype, so a running calculator never
      consults it; this is the predicate, not the policy in force. */
  function CanTokenTypeBeInsertedInRecovery(c: TokenClass): bool
  {
    c != NumberLiteral
  }

  /** Every lexable token of class `c` is the same token. */
  ghost predicate Determined(c: TokenClass)
  {
    forall t1: Token, t2: Token :: t1.cls == c && t2.cls == c ==> t1 == t2
  }

  /** The insertion policy allows a class the parser can expect exactly when
      the token to insert is determined by its class: a number could be
      any of 1, 2, 3, ... .  White space, which the parser never sees, is
      allowed although it is not determined. */
  lemma InsertionPolicy(c: TokenClass)
    ensures c != WhiteSpace ==> (CanTokenTypeBeInsertedInRecovery(c) <==> Determined(c))
    ensures c == WhiteSpace ==> CanTokenTypeBeInsertedInRecovery(c) && !Determined(c)
  {
    if c == NumberLiteral {
      var t1: Token := RawToken(NumberLiteral, "1");
      var t2: Token := RawToken(NumberLiteral, "2");
      assert t1 != t2;
    } else if c == WhiteSpace {
      var t1: Token := RawToken(WhiteSpace, " ");
      var t2: Token := RawToken(WhiteSpace, "\t");
      assert t1 != t2;
    } else {
      forall t1: Token, t2: Token | t1.cls == c && t2.cls == c
        ensures t1 == t2
      {
        if !IsAbstract(c) {
          FixedIsOnlyToken(t1);
          FixedIsOnlyToken(t2);
        }
      }
    }
  }

  /** WhiteSpace is in the lexer's SKIPPED group. */
  predicate IsSkipped(t: Token)
  {
    t.cls == WhiteSpace
  }

  /** The stream the calculator parser is run on. */
  function ParserInput(lexed: seq<Token>): (r: seq<Token>)
    ensures forall i :: 0 <= i < |r| ==> r[i].cls != WhiteSpace
  {
    Grammar.Unskipped(lexed, IsSkipped)
  }
}
