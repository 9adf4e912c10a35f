/**
  Consequences of the JSON grammar that the playground relies on: which
  alternative of `value` a token selects, what a duplicate key does, what
  happens to escape sequences, and the playground's valid sample.
*/
module JsonProperties {
  import opened Wrappers
  import opened JsonTokens
  import opened JsonValue
  import opened JsonParser
  import opened JsonPrinter
  import Grammar
  import SeqFacts

  /** The first token alone decides the alternative of `value`: a string
      or a number literal is read on the spot. */
  lemma LiteralDispatch(toks: seq<Token>)
    requires |toks| > 0
    ensures toks[0].kind == StringLiteral ==> ParseValue(toks) == Some((JString(Chop(toks[0].image)), toks[1..]))
    ensures toks[0].kind == NumberLiteral ==> ParseValue(toks) == Some((JNumber(toks[0].image), toks[1..]))
  {
    var k := toks[0].kind;
    if k == StringLiteral {
      ValueChoice(k, 0);
      OneTokenValue(toks, 0);
    } else if k == NumberLiteral {
      ValueChoice(k, 1);
      OneTokenValue(toks, 1);
    }
  }

  /** `true`, `false` and `null` are read on the spot as the values they
      name. */
  lemma KeywordDispatch(toks: seq<Token>, v: Json)
    requires |toks| > 0
    requires (toks[0].kind, v) in {(True, JTrue), (False, JFalse), (Null, JNull)}
    ensures ParseValue(toks) == Some((v, toks[1..]))
  {
    var k := toks[0].kind;
    var alt := if k == True then 4 else if k == False then 5 else 6;
    ValueChoice(k, alt);
    OneTokenValue(toks, alt);
  }

  /** A token that starts no value is a syntax error. */
  lemma NonValueRejected(toks: seq<Token>)
    requires |toks| > 0 && toks[0].kind !in ValueStart
    ensures ParseValue(toks).None?
  {
    assert forall i :: 0 <= i < |ValueFirsts| ==> ValueFirsts[i] <= ValueStart;
  }

  /** `{` starts an object and `[` an array, whatever follows. */
  lemma CompoundDispatch(toks: seq<Token>)
    requires |toks| > 0
    ensures toks[0].kind == LCurly ==> ParseValue(toks) == ParseObject(toks)
    ensures toks[0].kind == LSquare ==> ParseValue(toks) == ParseArray(toks)
  {
    if toks[0].kind == LCurly {
      ValueChoice(LCurly, 2);
    } else if toks[0].kind == LSquare {
      ValueChoice(LSquare, 3);
    }
  }

  /** Properties are assigned in order, so of two members with the same key
      the later one wins: the object a parse builds maps every key to the
      value of its last occurrence in the text, and holds no other keys. */
  lemma LaterDuplicateKeyWins(toks: seq<Token>) returns (ms0: seq<Member>)
    requires ParseObject(toks).Some?
    ensures PrintableMembers(ms0)
    ensures toks == Print(JObject(ms0)) + ParseObject(toks).value.1
    ensures forall k :: Lookup(ParseObject(toks).value.0.members, k) == LastBinding(CanonMembers(ms0), k)
    ensures DistinctKeys(ParseObject(toks).value.0.members)
  {
    ms0 := ObjectWasPrinted(toks);
    forall k {
      MergeLookup(CanonMembers(ms0), k);
    }
    MergeDistinct(CanonMembers(ms0));
  }

  /** A string-literal token. */
  function Str(image: string): (t: Token)
    requires IsQuoted(image)
    ensures t.kind == StringLiteral && t.image == image
  {
    RawToken(StringLiteral, image)
  }

  /** A number-literal token. */
  function Num(image: string): (t: Token)
    requires |image| > 0
    ensures t.kind == NumberLiteral && t.image == image
  {
    RawToken(NumberLiteral, image)
  }

  /** A string value is the literal's text between the quotes with every
      escape sequence left as written: `"a\nb"` gives the four characters
      a, backslash, n, b. */
  lemma EscapesKept()
    ensures ParseValue([Str("\"a\\nb\"")]) == Some((JString("a\\nb"), []))
    ensures |"a\\nb"| == 4 && "a\\nb"[1] == '\\'
  {
    var toks := [Str("\"a\\nb\"")];
    LiteralDispatch(toks);
    assert Chop(toks[0].image) == "a\\nb";
    assert toks[1..] == [];
  }

  /** The object `{"a": 1, "a": 2}` as its members. */
  const DuplicateMembers: seq<Member> := [Member("\"a\"", JNumber("1")), Member("\"a\"", JNumber("2"))]

  /** ... and as tokens. */
  const DuplicateSample: seq<Token> :=
    [Fixed(LCurly), Str("\"a\""), Fixed(Colon), Num("1"), Fixed(Comma),
     Str("\"a\""), Fixed(Colon), Num("2"), Fixed(RCurly)]

  lemma DuplicatePrinted(ms: seq<Member>)
    requires ms == DuplicateMembers
    ensures PrintableMembers(ms)
    ensures Print(JObject(ms)) + [] == DuplicateSample
  {
    assert PrintMember(ms[0]) == [Str("\"a\""), Fixed(Colon), Num("1")];
    assert PrintMember(ms[1]) == [Str("\"a\""), Fixed(Colon), Num("2")];
    PrintMembersCons(ms[1], []);
    PrintMembersCons(ms[0], [ms[1]]);
    assert [ms[1]] + [] == [ms[1]];
    assert [ms[0]] + [ms[1]] == ms;
  }

  /** Assigning the second `"a"` replaces the first. */
  lemma DuplicateMerged(ms: seq<Member>)
    requires ms == DuplicateMembers
    ensures Merge(CanonMembers(ms)) == [ms[1]]
  {
    var m1, m2 := ms[0], ms[1];
    assert CanonMembers(ms) == ms;
    assert Assign([], m1) == [m1];
    assert Assign([m1], m2) == [m2];
    MergeIntoSnoc([], [m1], m2);
    assert [m1] + [m2] == ms;
    assert MergeInto([], [m1]) == MergeInto([m1], []) by {
      assert [m1][1..] == [];
    }
  }

  /** `{"a": 1, "a": 2}` is the object `{"a": 2}`, its key still quoted. */
  lemma DuplicateKeySample(toks: seq<Token>)
    requires toks == DuplicateSample
    ensures ParseObject(toks) == Some((JObject([Member("\"a\"", JNumber("2"))]), []))
  {
    DuplicatePrinted(DuplicateMembers);
    PrintThenParseObject(DuplicateMembers, []);
    DuplicateMerged(DuplicateMembers);
  }

  /** The playground's valid sample, once white space is skipped: one line
      of the sample text per group. */
  const ValidSample: seq<Token> :=
    [Fixed(LCurly)]
    + [Str("\"firstName\""), Fixed(Colon), Str("\"John\""), Fixed(Comma)]
    + [Str("\"lastName\""), Fixed(Colon), Str("\"Smith\""), Fixed(Comma)]
    + [Str("\"isAlive\""), Fixed(Colon), Fixed(True), Fixed(Comma)]
    + [Str("\"age\""), Fixed(Colon), Num("25")]
    + [Fixed(RCurly)]

  /** The four properties of the valid sample, in the order written. */
  const ValidMembers: seq<Member> :=
    [Member("\"firstName\"", JString("John")), Member("\"lastName\"", JString("Smith")),
     Member("\"isAlive\"", JTrue), Member("\"age\"", JNumber("25"))]

  /** A property with a string value prints as its key, a colon and the
      string with its quotes put back. */
  lemma StringLine(m: Member)
    requires IsQuoted(m.key) && m.value.JString?
    ensures PrintMember(m) == [Str(m.key), Fixed(Colon), Str(Quote(m.value.text))]
  {
  }

  /** The two string-valued properties print as their lines of the sample,
      the value's quotes put back. */
  lemma ValidStringLines(ms: seq<Member>)
    requires ms == ValidMembers
    ensures PrintMember(ms[0]) == [Str("\"firstName\""), Fixed(Colon), Str("\"John\"")]
    ensures PrintMember(ms[1]) == [Str("\"lastName\""), Fixed(Colon), Str("\"Smith\"")]
  {
    var first, second := ms[0], ms[1];
    assert first == Member("\"firstName\"", JString("John"));
    assert second == Member("\"lastName\"", JString("Smith"));
    StringLine(first);
    StringLine(second);
    assert Quote("John") == "\"John\"";
    assert Quote("Smith") == "\"Smith\"";
  }

  /** The other two properties print as their lines of the sample, and all
      four can be printed. */
  lemma ValidOtherLines(ms: seq<Member>)
    requires ms == ValidMembers
    ensures PrintableMembers(ms)
    ensures PrintMember(ms[2]) == [Str("\"isAlive\""), Fixed(Colon), Fixed(True)]
    ensures PrintMember(ms[3]) == [Str("\"age\""), Fixed(Colon), Num("25")]
  {
  }

  /** Four members print as their lines joined by commas. */
  lemma FourMembersPrinted(ms: seq<Member>)
    requires |ms| == 4 && PrintableMembers(ms)
    ensures PrintMembers(ms) == PrintMember(ms[0]) + ([Fixed(Comma)] + PrintMember(ms[1]) +
                                ([Fixed(Comma)] + PrintMember(ms[2]) + ([Fixed(Comma)] + PrintMember(ms[3]))))
  {
    var t1 := ms[1..];
    var t2 := t1[1..];
    var t3 := t2[1..];
    assert t1[0] == ms[1] && t2[0] == ms[2] && t3[0] == ms[3] && t3[1..] == [];
    assert PrintableMembers(t1) && PrintableMembers(t2) && PrintableMembers(t3);
    assert PrintMoreMembers(t3) == [Fixed(Comma)] + PrintMember(ms[3]) by {
      assert PrintMoreMembers(t3[1..]) == [];
    }
    assert PrintMoreMembers(t2) == [Fixed(Comma)] + PrintMember(ms[2]) + PrintMoreMembers(t3);
    assert PrintMoreMembers(t1) == [Fixed(Comma)] + PrintMember(ms[1]) + PrintMoreMembers(t2);
  }

  /** Printing the four properties gives the sample's tokens. */
  lemma ValidSamplePrinted(ms: seq<Member>)
    requires ms == ValidMembers
    ensures PrintableMembers(ms)
    ensures Print(JObject(ms)) + [] == ValidSample
  {
    ValidStringLines(ms);
    ValidOtherLines(ms);
    FourMembersPrinted(ms);
    assert Print(JObject(ms)) == [Fixed(LCurly)] + PrintMembers(ms) + [Fixed(RCurly)];
  }

  /** The four keys differ, and the values are already canonical. */
  lemma ValidMembersDistinct(ms: seq<Member>)
    requires ms == ValidMembers
    ensures DistinctKeys(ms) && CanonMembers(ms) == ms
  {
    var t2, t3, t4 := ms[1..], ms[2..], ms[3..];
    assert t2[1..] == t3 && t3[1..] == t4 && t4[1..] == [];
    assert KeySet(t4) == {"\"age\""};
    assert KeySet(t3) == {"\"isAlive\"", "\"age\""};
    assert KeySet(t2) == {"\"lastName\"", "\"isAlive\"", "\"age\""};
    assert DistinctKeys(t4);
    assert DistinctKeys(t3);
    assert DistinctKeys(t2);
  }

  /** An object whose keys all differ and whose values are in the form the
      grammar builds reads back as itself. */
  lemma DistinctObjectParses(ms: seq<Member>, rest: seq<Token>)
    requires PrintableMembers(ms) && DistinctKeys(ms) && CanonMembers(ms) == ms
    ensures ParseObject(Print(JObject(ms)) + rest) == Some((JObject(ms), rest))
  {
    PrintThenParseObject(ms, rest);
    MergeOfDistinct(ms);
  }

  /** It reads as four properties, in order, keys quoted and strings not. */
  lemma ValidSampleParses(toks: seq<Token>)
    requires toks == ValidSample
    ensures ParseObject(toks) == Some((JObject(ValidMembers), []))
  {
    ValidSamplePrinted(ValidMembers);
    ValidMembersDistinct(ValidMembers);
    DistinctObjectParses(ValidMembers, []);
  }

  /** The white space of the sample text, each run one token. */
  const Indent: Token := RawToken(WhiteSpace, "\n\t")
  const Blank: Token := RawToken(WhiteSpace, " ")
  const LineBreak: Token := RawToken(WhiteSpace, "\n")

  /** One line of the sample as lexed: indent, key, colon, blank, value and
      whatever ends the line. */
  function TypedLine(key: Token, value: Token, end: seq<Token>): seq<Token>
  {
    SpacedItem(Indent, key, Blank, value, end)
  }

  /** A key and a value with white space before the key and after the colon. */
  function SpacedItem(before: Token, key: Token, after: Token, value: Token, end: seq<Token>): seq<Token>
  {
    [before] + [key, Fixed(Colon)] + [after] + ([value] + end)
  }

  /** The parser sees a spaced line without its white space. */
  lemma SpacedItemSkipped(before: Token, key: Token, after: Token, value: Token, end: seq<Token>)
    requires before.kind == WhiteSpace && after.kind == WhiteSpace
    requires key.kind != WhiteSpace && value.kind != WhiteSpace
    requires forall i :: 0 <= i < |end| ==> end[i].kind != WhiteSpace
    ensures ParserInput(SpacedItem(before, key, after, value, end)) == [key, Fixed(Colon), value] + end
  {
    Grammar.UnskippedBetween(before, [key, Fixed(Colon)], after, [value] + end, IsSkipped);
    SeqFacts.ThreeThen(key, Fixed(Colon), value, end);
  }

  /** The keys and values of the valid sample. */
  const FirstName := Str("\"firstName\"")
  const John := Str("\"John\"")
  const LastName := Str("\"lastName\"")
  const Smith := Str("\"Smith\"")
  const IsAlive := Str("\"isAlive\"")
  const Age := Str("\"age\"")
  const TwentyFive := Num("25")

  /** The valid sample exactly as the lexer reads the text. */
  const ValidTyped: seq<Token> :=
    [Fixed(LCurly)]
    + TypedLine(FirstName, John, [Fixed(Comma)])
    + TypedLine(LastName, Smith, [Fixed(Comma)])
    + TypedLine(IsAlive, Fixed(True), [Fixed(Comma)])
    + TypedLine(Age, TwentyFive, [])
    + [LineBreak, Fixed(RCurly)]

  /** Skipping works piece by piece. */
  lemma SkipAppend(a: seq<Token>, b: seq<Token>, a': seq<Token>, b': seq<Token>)
    requires ParserInput(a) == a' && ParserInput(b) == b'
    ensures ParserInput(a + b) == a' + b'
  {
    Grammar.UnskippedAppend(a, b, IsSkipped);
  }

  /** A spaced line that ends in `end` reaches the parser as the four tokens
      of the sample's line. */
  lemma LineSkipped(key: Token, value: Token, end: seq<Token>)
    requires key.kind != WhiteSpace && value.kind != WhiteSpace
    requires forall i :: 0 <= i < |end| ==> end[i].kind != WhiteSpace
    ensures ParserInput(TypedLine(key, value, end)) == [key, Fixed(Colon), value] + end
  {
    SpacedItemSkipped(Indent, key, Blank, value, end);
  }

  /** An object of four lines, closed on a line of its own, reaches the
      parser as the lines' tokens between the braces. */
  lemma FourLinesSkipped(l1: seq<Token>, l2: seq<Token>, l3: seq<Token>, l4: seq<Token>,
                         c1: seq<Token>, c2: seq<Token>, c3: seq<Token>, c4: seq<Token>)
    requires ParserInput(l1) == c1 && ParserInput(l2) == c2
    requires ParserInput(l3) == c3 && ParserInput(l4) == c4
    ensures ParserInput([Fixed(LCurly)] + l1 + l2 + l3 + l4 + [LineBreak, Fixed(RCurly)])
         == [Fixed(LCurly)] + c1 + c2 + c3 + c4 + [Fixed(RCurly)]
  {
    var open := [Fixed(LCurly)];
    var close := [LineBreak, Fixed(RCurly)];
    Grammar.UnskippedKeepsClean(open, IsSkipped);
    assert ParserInput(close) == [Fixed(RCurly)] by {
      Grammar.UnskippedIgnoresSkipped([], LineBreak, [Fixed(RCurly)], IsSkipped);
      assert [] + [LineBreak] + [Fixed(RCurly)] == close;
      Grammar.UnskippedKeepsClean([Fixed(RCurly)], IsSkipped);
    }
    SkipAppend(open, l1, open, c1);
    SkipAppend(open + l1, l2, open + c1, c2);
    SkipAppend(open + l1 + l2, l3, open + c1 + c2, c3);
    SkipAppend(open + l1 + l2 + l3, l4, open + c1 + c2 + c3, c4);
    SkipAppend(open + l1 + l2 + l3 + l4, close, open + c1 + c2 + c3 + c4, [Fixed(RCurly)]);
  }

  /** What reaches the parser of the typed sample is the sample's tokens. */
  lemma ValidTypedSkipped(lexed: seq<Token>)
    requires lexed == ValidTyped
    ensures ParserInput(lexed) == ValidSample
  {
    LineSkipped(FirstName, John, [Fixed(Comma)]);
    LineSkipped(LastName, Smith, [Fixed(Comma)]);
    LineSkipped(IsAlive, Fixed(True), [Fixed(Comma)]);
    LineSkipped(Age, TwentyFive, []);
    FourLinesSkipped(TypedLine(FirstName, John, [Fixed(Comma)]),
                     TypedLine(LastName, Smith, [Fixed(Comma)]),
                     TypedLine(IsAlive, Fixed(True), [Fixed(Comma)]),
                     TypedLine(Age, TwentyFive, []),
                     [FirstName, Fixed(Colon), John] + [Fixed(Comma)],
                     [LastName, Fixed(Colon), Smith] + [Fixed(Comma)],
                     [IsAlive, Fixed(Colon), Fixed(True)] + [Fixed(Comma)],
                     [Age, Fixed(Colon), TwentyFive] + []);
  }

  /** The valid sample as typed, with its line breaks, tabs and blanks, is
      the document of four properties. */
  lemma ValidSampleTyped(lexed: seq<Token>)
    requires lexed == ValidTyped
    ensures ParseDocument(lexed) == Some((JObject(ValidMembers), []))
  {
    ValidTypedSkipped(lexed);
    ValidSampleParses(ParserInput(lexed));
  }

  // ---------------------------------------------------------------------
  // The malformed samples: with error recovery left out, each is a syntax
  // error at the place its name describes.

  /** "Also missing opening curly" and "Missing colons": an object starts
      with `{`, and a key is followed by `:`. */
  lemma MalformedObjectRejected(toks: seq<Token>)
    ensures !NextIs(toks, LCurly) ==> ParseObject(toks).None?
    ensures |toks| >= 3 && toks[0].kind == LCurly && toks[1].kind == StringLiteral && toks[2].kind != Colon
            ==> ParseObject(toks).None?
  {
    if |toks| >= 3 && toks[0].kind == LCurly && toks[1].kind == StringLiteral && toks[2].kind != Colon {
      assert toks[1..][1..][0] == toks[2];
      assert ParseObjectItem(toks[1..]).None?;
      assert ParseItems(toks[1..]).None?;
    }
  }

  /** "Too many commas": a comma must be followed by another item or
      value, never by a second comma. */
  lemma DoubledCommaRejected(toks: seq<Token>, ms: seq<Member>, vs: seq<Json>)
    requires CanonicalMembers(ms) && AllCanonical(vs)
    requires |toks| >= 2 && toks[0].kind == Comma && toks[1].kind == Comma
    ensures ParseMoreItems(toks, ms).None?
    ensures ParseMoreValues(toks, vs).None?
  {
    assert toks[1..][0].kind == Comma;
  }

  /** "Missing comma": after one or more items the object goes on only with
      `,` or `}`; any other token there, such as the next key, is a syntax
      error. */
  lemma MissingCommaRejected(ms: seq<Member>, t: Token, rest: seq<Token>)
    requires PrintableMembers(ms) && |ms| > 0
    requires t.kind != Comma && t.kind != RCurly
    ensures ParseObject([Fixed(LCurly)] + (PrintMembers(ms) + ([t] + rest))).None?
  {
    var toks := [Fixed(LCurly)] + (PrintMembers(ms) + ([t] + rest));
    assert toks[1..] == PrintMembers(ms) + ([t] + rest);
    PrintThenParseItems(ms, [t] + rest);
  }

  /** Inside the MANY loop of `object`, with any members read so far: a key
      after a comma must be followed by `:`. */
  lemma {:induction false} MoreItemsMissingColon(ms: seq<Member>, acc: seq<Member>, key: Token, t: Token, rest: seq<Token>)
    requires PrintableMembers(ms) && CanonicalMembers(acc)
    requires key.kind == StringLiteral && t.kind != Colon
    ensures ParseMoreItems(PrintMoreMembers(ms) + ([Fixed(Comma), key, t] + rest), acc).None?
    decreases ms
  {
    var bad := [Fixed(Comma), key, t] + rest;
    if |ms| == 0 {
      assert PrintMoreMembers(ms) + bad == bad;
      CommaKeyWithoutColon(acc, key, t, rest);
    } else {
      MoreItemsStep(ms, acc, bad);
      MoreItemsMissingColon(ms[1..], Assign(acc, Member(ms[0].key, Canon(ms[0].value))), key, t, rest);
    }
  }

  /** An item is a key and then `:`. */
  lemma KeyWithoutColon(key: Token, t: Token, rest: seq<Token>)
    requires t.kind != Colon
    ensures ParseObjectItem([key, t] + rest).None?
  {
    assert ([key, t] + rest)[1..][0] == t;
  }

  /** A round of the MANY loop of `object` fails on a key without `:`. */
  lemma CommaKeyWithoutColon(acc: seq<Member>, key: Token, t: Token, rest: seq<Token>)
    requires CanonicalMembers(acc) && t.kind != Colon
    ensures ParseMoreItems([Fixed(Comma), key, t] + rest, acc).None?
  {
    var bad := [Fixed(Comma), key, t] + rest;
    assert bad[1..] == [key, t] + rest;
    KeyWithoutColon(key, t, rest);
  }

  /** "Missing colons", past the first item: a key after one or more items
      and a comma must be followed by `:` as well. */
  lemma MissingColonRejected(ms: seq<Member>, key: Token, t: Token, rest: seq<Token>)
    requires PrintableMembers(ms) && |ms| > 0
    requires key.kind == StringLiteral && t.kind != Colon
    ensures ParseObject([Fixed(LCurly)] + (PrintMembers(ms) + ([Fixed(Comma), key, t] + rest))).None?
  {
    var bad := [Fixed(Comma), key, t] + rest;
    var inner := PrintMembers(ms) + bad;
    var after := PrintMoreMembers(ms[1..]) + bad;
    var m := Member(ms[0].key, Canon(ms[0].value));
    assert ParseObjectItem(inner) == Some((m, after)) by {
      SeqFacts.Assoc(PrintMember(ms[0]), PrintMoreMembers(ms[1..]), bad);
      PrintThenParseMember(ms[0], after);
    }
    AssignCanonical([], m);
    MoreItemsMissingColon(ms[1..], Assign([], m), key, t, rest);
    assert ParseItems(inner).None?;
    SeqFacts.DropHead(Fixed(LCurly), inner);
  }

  /** "Missing comma in array": after one or more values the array goes on
      only with `,` or `]`; any other token there, such as the next value, is
      a syntax error. */
  lemma MissingArrayCommaRejected(vs: seq<Json>, t: Token, rest: seq<Token>)
    requires PrintableElements(vs) && |vs| > 0
    requires t.kind != Comma && t.kind != RSquare
    ensures ParseArray([Fixed(LSquare)] + (PrintElements(vs) + ([t] + rest))).None?
  {
    var toks := [Fixed(LSquare)] + (PrintElements(vs) + ([t] + rest));
    assert toks[1..] == PrintElements(vs) + ([t] + rest);
    PrintThenParseElements(vs, [t] + rest);
  }
}
