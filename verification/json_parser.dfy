/**
  The JSON grammar of the playground (rules `object`, `objectItem`, `array`
  and `value`) as LL(1) recursive descent.  Each rule takes the remaining
  token stream and gives back the value it built together with the tokens
  after it, or `None` where the parser would report a syntax error.

  OPTION and MANY test the next token against the FIRST set of their body
  (`StringLiteral` for an object item, any start of a value for an array
  element, `Comma` for the "more items" loops); the loops are the functions
  `ParseMoreItems` and `ParseMoreValues`.  Every recursive call happens after a
  token was consumed or lower in the rule ranking, hence `decreases |toks|,
  rank`.
*/
module JsonParser {
  import opened Wrappers
  import opened JsonTokens
  import opened JsonValue
  import Grammar

  /** The outcome of a rule: what it built and the tokens after it. */
  type Parsed<T> = Option<(T, seq<Token>)>

  predicate NextIs(toks: seq<Token>, k: Kind)
  {
    |toks| > 0 && toks[0].kind == k
  }

  /** The FIRST set of each alternative of `value`, in the order listed:
      string, number, object, array, true, false, null. */
  const ValueFirsts: seq<set<Kind>> :=
    [{StringLiteral}, {NumberLiteral}, {LCurly}, {LSquare}, {True}, {False}, {Null}]

  /** The token classes that can start a value. */
  const ValueStart: set<Kind> :=
    {StringLiteral, NumberLiteral, LCurly, LSquare, True, False, Null}

  /** The token class each kind of value starts with. */
  function StartOf(v: Json): Kind
  {
    match v
    case JString(_) => StringLiteral
    case JNumber(_) => NumberLiteral
    case JObject(_) => LCurly
    case JArray(_) => LSquare
    case JTrue => True
    case JFalse => False
    case JNull => Null
  }

  /** `image.substr(1, image.length - 2)`: the text between the quotes, escape
      sequences left as written.  A negative length makes `substr` return the
      empty string. */
  function Chop(image: string): (text: string)
    ensures |image| >= 2 ==> image == [image[0]] + text + [image[|image| - 1]]
    ensures |image| < 2 ==> text == []
  {
    if |image| < 2 then [] else image[1..|image| - 1]
  }

  /** Each FIRST set of `value` holds exactly one token class. */
  lemma ValueAlternative(k: Kind, alt: nat)
    requires alt < |ValueFirsts| && k in ValueFirsts[alt]
    ensures k == [StringLiteral, NumberLiteral, LCurly, LSquare, True, False, Null][alt]
  {
  }

  /** The value of an alternative of `value` that is one token: a string
      without its quotes, a number as written, or the keyword's value. */
  function Scalar(t: Token): (v: Json)
    requires t.kind in {StringLiteral, NumberLiteral, True, False, Null}
    ensures StartOf(v) == t.kind
  {
    match t.kind
    case StringLiteral => JString(Chop(t.image))
    case NumberLiteral => JNumber(t.image)
    case True => JTrue
    case False => JFalse
    case Null => JNull
  }

  /** Rule `value`: OR over the seven alternatives, chosen by the next token;
      all but the object and the array consume that one token. */
  function ParseValue(toks: seq<Token>): (r: Parsed<Json>)
    ensures r.Some? ==> Grammar.Consumed(toks, r.value.1)
    ensures r.Some? ==> toks[0].kind == StartOf(r.value.0)
    ensures r.Some? ==> Canonical(r.value.0)
    decreases |toks|, 2
  {
    if |toks| == 0 then None
    else match Grammar.FirstMatch(ValueFirsts, toks[0].kind)
      case None => None
      case Some(alt) =>
        ValueAlternative(toks[0].kind, alt);
        if alt == 2 then ParseObject(toks)
        else if alt == 3 then ParseArray(toks)
        else
          assert toks[|toks| - |toks[1..]|..] == toks[1..];
          Some((Scalar(toks[0]), toks[1..]))
  }

  /** A token that is a value on its own is read on the spot, once the
      alternative it selects is known. */
  lemma OneTokenValue(toks: seq<Token>, alt: nat)
    requires |toks| > 0 && toks[0].kind in {StringLiteral, NumberLiteral, True, False, Null}
    requires Grammar.FirstMatch(ValueFirsts, toks[0].kind) == Some(alt)
    ensures ParseValue(toks) == Some((Scalar(toks[0]), toks[1..]))
  {
  }

  /** Rule `object`: `{` [item (`,` item)*] `}`, the items merged with
      `_.assign` in order. */
  function ParseObject(toks: seq<Token>): (r: Parsed<Json>)
    ensures r.Some? ==> Grammar.Consumed(toks, r.value.1)
    ensures r.Some? ==> NextIs(toks, LCurly) && r.value.0.JObject?
    ensures r.Some? ==> Canonical(r.value.0)
    decreases |toks|, 1
  {
    if !NextIs(toks, LCurly) then None
    else match ParseItems(toks[1..])
      case None => None
      case Some((ms, rest)) =>
        if NextIs(rest, RCurly) then Some((JObject(ms), rest[1..])) else None
  }

  /** The OPTION of `object`: taken when the next token can start an item. */
  function ParseItems(toks: seq<Token>): (r: Parsed<seq<Member>>)
    ensures r.Some? ==> Grammar.Suffix(r.value.1, toks)
    ensures r.Some? ==> CanonicalMembers(r.value.0)
    ensures !NextIs(toks, StringLiteral) ==> r == Some(([], toks))
    decreases |toks|, 2
  {
    if NextIs(toks, StringLiteral) then ParseItemList(toks)
    else
      assert toks[|toks| - |toks|..] == toks;
      Some(([], toks))
  }

  /** Inside the OPTION: the first item, then the MANY loop over the rest,
      starting from the one-property object of the first. */
  function ParseItemList(toks: seq<Token>): (r: Parsed<seq<Member>>)
    ensures r.Some? ==> Grammar.Suffix(r.value.1, toks)
    ensures r.Some? ==> CanonicalMembers(r.value.0)
    decreases |toks|, 1
  {
    match ParseObjectItem(toks)
    case None => None
    case Some((m, rest)) =>
      AssignCanonical([], m);
      var r := ParseMoreItems(rest, Assign([], m));
      Grammar.SuffixChain(r, rest, toks);
      r
  }

  /** Rule `objectItem`: StringLiteral `:` value, giving the one-property
      object `{image: value}` whose key keeps its quotes. */
  function ParseObjectItem(toks: seq<Token>): (r: Parsed<Member>)
    ensures r.Some? ==> Grammar.Consumed(toks, r.value.1)
    ensures r.Some? ==> NextIs(toks, StringLiteral) && r.value.0.key == toks[0].image
    ensures r.Some? ==> Canonical(r.value.0.value)
    decreases |toks|, 0
  {
    if !NextIs(toks, StringLiteral) || !NextIs(toks[1..], Colon) then None
    else match ParseValue(toks[2..])
      case None => None
      case Some((v, rest)) => Some((Member(toks[0].image, v), rest))
  }

  /** What an item that parses is made of: a key token, the colon token and
      a value. */
  lemma ItemShape(toks: seq<Token>)
    requires ParseObjectItem(toks).Some?
    ensures |toks| >= 2 && toks[0].kind == StringLiteral && toks[1] == Fixed(Colon)
    ensures ParseValue(toks[2..]).Some?
    ensures ParseObjectItem(toks)
         == Some((Member(toks[0].image, ParseValue(toks[2..]).value.0), ParseValue(toks[2..]).value.1))
  {
    FixedIsOnlyToken(toks[1]);
  }

  /** The MANY loop of `object`: while the next token is a comma, consume it
      and one more item and assign it into `acc`. */
  function ParseMoreItems(toks: seq<Token>, acc: seq<Member>): (r: Parsed<seq<Member>>)
    requires CanonicalMembers(acc)
    ensures r.Some? ==> Grammar.Suffix(r.value.1, toks) && !NextIs(r.value.1, Comma)
    ensures r.Some? ==> CanonicalMembers(r.value.0)
    decreases |toks|, 0
  {
    if NextIs(toks, Comma) then
      match ParseObjectItem(toks[1..])
      case None => None
      case Some((m, rest)) =>
        AssignCanonical(acc, m);
        Grammar.SuffixChain(ParseObjectItem(toks[1..]), toks[1..], toks);
        var r := ParseMoreItems(rest, Assign(acc, m));
        Grammar.SuffixChain(r, rest, toks);
        r
    else Some((acc, toks))
  }

  /** Rule `array`: `[` [value (`,` value)*] `]`, the values in order. */
  function ParseArray(toks: seq<Token>): (r: Parsed<Json>)
    ensures r.Some? ==> Grammar.Consumed(toks, r.value.1)
    ensures r.Some? ==> NextIs(toks, LSquare) && r.value.0.JArray?
    ensures r.Some? ==> Canonical(r.value.0)
    decreases |toks|, 1
  {
    if !NextIs(toks, LSquare) then None
    else match ParseElements(toks[1..])
      case None => None
      case Some((vs, rest)) =>
        if NextIs(rest, RSquare) then Some((JArray(vs), rest[1..])) else None
  }

  /** The OPTION of `array`: taken when the next token can start a value. */
  function ParseElements(toks: seq<Token>): (r: Parsed<seq<Json>>)
    ensures r.Some? ==> Grammar.Suffix(r.value.1, toks)
    ensures r.Some? ==> AllCanonical(r.value.0)
    ensures (|toks| == 0 || toks[0].kind !in ValueStart) ==> r == Some(([], toks))
    decreases |toks|, 3
  {
    if |toks| > 0 && toks[0].kind in ValueStart then
      match ParseValue(toks)
      case None => None
      case Some((v, rest)) =>
        AllCanonicalSnoc([], v);
        assert [] + [v] == [v];
        ParseMoreValues(rest, [v])
    else Some(([], toks))
  }

  /** The MANY loop of `array`: while the next token is a comma, consume it
      and push one more value. */
  function ParseMoreValues(toks: seq<Token>, acc: seq<Json>): (r: Parsed<seq<Json>>)
    requires AllCanonical(acc)
    ensures r.Some? ==> Grammar.Suffix(r.value.1, toks) && !NextIs(r.value.1, Comma)
    ensures r.Some? ==> AllCanonical(r.value.0)
    decreases |toks|, 0
  {
    if NextIs(toks, Comma) then
      match ParseValue(toks[1..])
      case None => None
      case Some((v, rest)) =>
        Grammar.SuffixChain(ParseValue(toks[1..]), toks[1..], toks);
        AllCanonicalSnoc(acc, v);
        var r := ParseMoreValues(rest, acc + [v]);
        Grammar.SuffixChain(r, rest, toks);
        r
    else Some((acc, toks))
  }

  /** The playground's default rule, run on the lexer's output once the
      skipped white space is gone. */
  function ParseDocument(lexed: seq<Token>): (r: Parsed<Json>)
    ensures r.Some? ==> r.value.0.JObject? && Canonical(r.value.0)
    ensures r.Some? ==> |r.value.1| < |ParserInput(lexed)|
    ensures (forall i :: 0 <= i < |lexed| ==> lexed[i].kind == WhiteSpace) ==> r.None?
  {
    ParseObject(ParserInput(lexed))
  }

  /** White space anywhere in the lexed input does not change the result. */
  lemma WhiteSpaceIgnored(a: seq<Token>, t: Token, b: seq<Token>)
    requires t.kind == WhiteSpace
    ensures ParseDocument(a + [t] + b) == ParseDocument(a + b)
  {
    Grammar.UnskippedIgnoresSkipped(a, t, b, IsSkipped);
  }

  /** Input without white space reaches the `object` rule unchanged. */
  lemma CleanInputUnchanged(lexed: seq<Token>)
    requires forall i :: 0 <= i < |lexed| ==> lexed[i].kind != WhiteSpace
    ensures ParseDocument(lexed) == ParseObject(lexed)
  {
    Grammar.UnskippedKeepsClean(lexed, IsSkipped);
  }
}
