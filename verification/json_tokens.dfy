/**
  The token vocabulary of the JSON grammar and the shape of the tokens its
  lexer hands to the parser.  Lexing itself (the regular expressions and
  their declared order) is not modelled: a `Token` is any token the lexer can
  produce, described by the images its class admits.
*/
module JsonTokens {
  import Grammar

  datatype Kind =
    | True | False | Null
    | LCurly | RCurly | LSquare | RSquare
    | Comma | Colon
    | StringLiteral | NumberLiteral
    | WhiteSpace

  datatype RawToken = RawToken(kind: Kind, image: string)

  /** A string-literal image: an opening and a closing double quote around
      the (undecoded) contents. */
  predicate IsQuoted(image: string)
  {
    |image| >= 2 && image[0] == '"' && image[|image| - 1] == '"'
  }

  /** What the lexer guarantees of each token: keywords and punctuation have
      their fixed text, string literals are quoted, numbers and white space
      are non-empty.  The inner syntax of strings and numbers is not
      modelled. */
  predicate Lexable(t: RawToken)
  {
    match t.kind
    case True => t.image == "true"
    case False => t.image == "false"
    case Null => t.image == "null"
    case LCurly => t.image == "{"
    case RCurly => t.image == "}"
    case LSquare => t.image == "["
    case RSquare => t.image == "]"
    case Comma => t.image == ","
    case Colon => t.image == ":"
    case StringLiteral => IsQuoted(t.image)
    case NumberLiteral => |t.image| > 0
    case WhiteSpace => |t.image| > 0
  }

  type Token = t: RawToken | Lexable(t) witness RawToken(Comma, ",")

  /** The token of a class whose text is fixed. */
  function Fixed(k: Kind): (t: Token)
    requires k !in {StringLiteral, NumberLiteral, WhiteSpace}
    ensures t.kind == k
  {
    match k
    case True => RawToken(True, "true")
    case False => RawToken(False, "false")
    case Null => RawToken(Null, "null")
    case LCurly => RawToken(LCurly, "{")
    case RCurly => RawToken(RCurly, "}")
    case LSquare => RawToken(LSquare, "[")
    case RSquare => RawToken(RSquare, "]")
    case Comma => RawToken(Comma, ",")
    case Colon => RawToken(Colon, ":")
  }

  /** A token class other than strings, numbers and white space has exactly
      one lexable token. */
  lemma FixedIsOnlyToken(t: Token)
    requires t.kind !in {StringLiteral, NumberLiteral, WhiteSpace}
    ensures t == Fixed(t.kind)
  {
  }

  /** WhiteSpace is in the lexer's SKIPPED group. */
  predicate IsSkipped(t: Token)
  {
    t.kind == WhiteSpace
  }

  /** The stream the JSON parser is run on. */
  function ParserInput(lexed: seq<Token>): (r: seq<Token>)
    ensures forall i :: 0 <= i < |r| ==> r[i].kind != WhiteSpace && r[i] in lexed
  {
    Grammar.Unskipped(lexed, IsSkipped)
  }
}
