/**
  A printer for JSON values, the reference the JSON grammar is checked
  against.  `Print` writes a value as the token stream the grammar reads;
  `Canon` is what the grammar makes of such a value: string quotes dropped
  again, and in every object the members merged with `_.assign`, so that a
  later duplicate key wins.

  The two directions proved here pin the grammar down completely:
  - `PrintThenParse`: parsing a printed value gives back its canonical form
    and leaves the following tokens untouched;
  - `ParsedWasPrinted`: whatever `value` accepts is a printed value followed
    by the rest, and the result is that value's canonical form.
*/
module JsonPrinter {
  import opened Wrappers
  import opened JsonTokens
  import opened JsonValue
  import opened JsonParser
  import Grammar
  import SeqFacts

  /** The image of a string literal with text `s`. */
  function Quote(s: string): (image: string)
    ensures IsQuoted(image)
  {
    "\"" + s + "\""
  }

  /** Dropping the quotes undoes quoting, whatever the text holds. */
  lemma ChopQuote(s: string)
    ensures Chop(Quote(s)) == s
  {
  }

  /** Every string-literal image is some text in quotes. */
  lemma QuoteChop(image: string)
    requires IsQuoted(image)
    ensures Quote(Chop(image)) == image
  {
    assert image == [image[0]] + image[1..|image| - 1] + [image[|image| - 1]];
  }

  /** Values that can be written as tokens: object keys are string-literal
      images (the grammar keeps keys in that form) and numbers are non-empty
      lexemes. */
  ghost predicate Printable(v: Json)
  {
    match v
    case JNumber(n) => |n| > 0
    case JObject(ms) => PrintableMembers(ms)
    case JArray(vs) => PrintableElements(vs)
    case _ => true
  }

  ghost predicate PrintableElements(vs: seq<Json>)
  {
    forall i :: 0 <= i < |vs| ==> Printable(vs[i])
  }

  ghost predicate PrintableMembers(ms: seq<Member>)
  {
    forall i :: 0 <= i < |ms| ==> IsQuoted(ms[i].key) && Printable(ms[i].value)
  }

  function Print(v: Json): (toks: seq<Token>)
    requires Printable(v)
    ensures |toks| > 0 && toks[0].kind == StartOf(v)
  {
    match v
    case JString(s) => [RawToken(StringLiteral, Quote(s))]
    case JNumber(n) => [RawToken(NumberLiteral, n)]
    case JObject(ms) => [Fixed(LCurly)] + PrintMembers(ms) + [Fixed(RCurly)]
    case JArray(vs) => [Fixed(LSquare)] + PrintElements(vs) + [Fixed(RSquare)]
    case JTrue => [Fixed(True)]
    case JFalse => [Fixed(False)]
    case JNull => [Fixed(Null)]
  }

  function PrintMember(m: Member): (toks: seq<Token>)
    requires IsQuoted(m.key) && Printable(m.value)
  {
    [RawToken(StringLiteral, m.key), Fixed(Colon)] + Print(m.value)
  }

  /** Members separated by commas. */
  function PrintMembers(ms: seq<Member>): seq<Token>
    requires PrintableMembers(ms)
  {
    if |ms| == 0 then [] else PrintMember(ms[0]) + PrintMoreMembers(ms[1..])
  }

  /** Members, each preceded by a comma. */
  function PrintMoreMembers(ms: seq<Member>): seq<Token>
    requires PrintableMembers(ms)
  {
    if |ms| == 0 then [] else [Fixed(Comma)] + PrintMember(ms[0]) + PrintMoreMembers(ms[1..])
  }

  function PrintElements(vs: seq<Json>): seq<Token>
    requires PrintableElements(vs)
  {
    if |vs| == 0 then [] else Print(vs[0]) + PrintMoreElements(vs[1..])
  }

  function PrintMoreElements(vs: seq<Json>): seq<Token>
    requires PrintableElements(vs)
  {
    if |vs| == 0 then [] else [Fixed(Comma)] + Print(vs[0]) + PrintMoreElements(vs[1..])
  }

  /** What the grammar makes of a value: quotes were dropped already by
      `Quote`/`Chop`, and every object's members are merged in order. */
  function Canon(v: Json): Json
  {
    match v
    case JObject(ms) => JObject(Merge(CanonMembers(ms)))
    case JArray(vs) => JArray(CanonElements(vs))
    case _ => v
  }

  function CanonMembers(ms: seq<Member>): (r: seq<Member>)
    ensures |r| == |ms|
  {
    if |ms| == 0 then [] else [Member(ms[0].key, Canon(ms[0].value))] + CanonMembers(ms[1..])
  }

  function CanonElements(vs: seq<Json>): (r: seq<Json>)
    ensures |r| == |vs|
  {
    if |vs| == 0 then [] else [Canon(vs[0])] + CanonElements(vs[1..])
  }

  /** The alternatives of `value` start with pairwise distinct tokens, so at
      most one of them applies. */
  lemma ValueFirstsDisjoint()
    ensures Grammar.PairwiseDisjoint(ValueFirsts)
  {
  }

  /** The alternative `value` takes for a token of class `k`. */
  lemma ValueChoice(k: Kind, i: nat)
    requires i < |ValueFirsts| && ValueFirsts[i] == {k}
    ensures Grammar.FirstMatch(ValueFirsts, k) == Some(i)
  {
    ValueFirstsDisjoint();
    Grammar.DisjointChoiceIsUnique(ValueFirsts, k, i);
  }

  lemma PrintMembersCons(m: Member, ms: seq<Member>)
    requires IsQuoted(m.key) && Printable(m.value) && PrintableMembers(ms)
    ensures PrintableMembers([m] + ms)
    ensures PrintMembers([m] + ms) == PrintMember(m) + PrintMoreMembers(ms)
    ensures PrintMoreMembers([m] + ms) == [Fixed(Comma)] + PrintMember(m) + PrintMoreMembers(ms)
    ensures CanonMembers([m] + ms) == [Member(m.key, Canon(m.value))] + CanonMembers(ms)
  {
    SeqFacts.DropHead(m, ms);
  }

  lemma PrintElementsCons(v: Json, vs: seq<Json>)
    requires Printable(v) && PrintableElements(vs)
    ensures PrintableElements([v] + vs)
    ensures PrintElements([v] + vs) == Print(v) + PrintMoreElements(vs)
    ensures PrintMoreElements([v] + vs) == [Fixed(Comma)] + Print(v) + PrintMoreElements(vs)
    ensures CanonElements([v] + vs) == [Canon(v)] + CanonElements(vs)
  {
    SeqFacts.DropHead(v, vs);
  }

  lemma CanonElementsCons(vs: seq<Json>)
    requires |vs| > 0
    ensures CanonElements(vs) == [Canon(vs[0])] + CanonElements(vs[1..])
  {
  }

  // ---------------------------------------------------------------------
  // Printing, then parsing

  /** A value of one token is read back on the spot. */
  lemma ScalarThenParse(v: Json, rest: seq<Token>)
    requires Printable(v) && !v.JObject? && !v.JArray?
    ensures ParseValue(Print(v) + rest) == Some((Canon(v), rest))
  {
    var toks := Print(v) + rest;
    assert toks[1..] == rest;
    match v
    case JString(s) =>
      ValueChoice(StringLiteral, 0);
      ChopQuote(s);
      OneTokenValue(toks, 0);
    case JNumber(n) =>
      ValueChoice(NumberLiteral, 1);
      OneTokenValue(toks, 1);
    case JTrue =>
      ValueChoice(True, 4);
      OneTokenValue(toks, 4);
    case JFalse =>
      ValueChoice(False, 5);
      OneTokenValue(toks, 5);
    case JNull =>
      ValueChoice(Null, 6);
      OneTokenValue(toks, 6);
  }

  lemma {:induction false} PrintThenParse(v: Json, rest: seq<Token>)
    requires Printable(v)
    ensures ParseValue(Print(v) + rest) == Some((Canon(v), rest))
    decreases v, 1
  {
    match v
    case JObject(ms) =>
      ValueChoice(LCurly, 2);
      PrintThenParseObject(ms, rest);
    case JArray(vs) =>
      ValueChoice(LSquare, 3);
      PrintThenParseArray(vs, rest);
    case _ =>
      ScalarThenParse(v, rest);
  }

  lemma {:induction false} PrintThenParseObject(ms: seq<Member>, rest: seq<Token>)
    requires PrintableMembers(ms)
    ensures ParseObject(Print(JObject(ms)) + rest) == Some((JObject(Merge(CanonMembers(ms))), rest))
    decreases ms, 1
  {
    var toks := Print(JObject(ms)) + rest;
    var close := [Fixed(RCurly)] + rest;
    SeqFacts.TailOfCons(Fixed(LCurly), PrintMembers(ms), [Fixed(RCurly)], rest);
    PrintThenParseItems(ms, close);
    assert close[1..] == rest;
  }

  /** The OPTION of `object` reads back the printed members, merged; after
      at least one member anything but a comma may follow. */
  lemma {:induction false} PrintThenParseItems(ms: seq<Member>, rest: seq<Token>)
    requires PrintableMembers(ms)
    requires !NextIs(rest, Comma)
    requires |ms| == 0 ==> !NextIs(rest, StringLiteral)
    ensures ParseItems(PrintMembers(ms) + rest) == Some((Merge(CanonMembers(ms)), rest))
    decreases ms, 0
  {
    if |ms| == 0 {
      assert PrintMembers(ms) + rest == rest;
    } else {
      var toks := PrintMembers(ms) + rest;
      var after := PrintMoreMembers(ms[1..]) + rest;
      SeqFacts.Assoc(PrintMember(ms[0]), PrintMoreMembers(ms[1..]), rest);
      PrintThenParseMember(ms[0], after);
      var m := Member(ms[0].key, Canon(ms[0].value));
      AssignCanonical([], m);
      PrintThenParseMoreMembers(ms[1..], Assign([], m), rest);
      assert Merge(CanonMembers(ms)) == MergeInto(Assign([], m), CanonMembers(ms[1..])) by {
        assert CanonMembers(ms)[1..] == CanonMembers(ms[1..]);
      }
    }
  }

  lemma {:induction false} PrintThenParseMember(m: Member, rest: seq<Token>)
    requires IsQuoted(m.key) && Printable(m.value)
    ensures ParseObjectItem(PrintMember(m) + rest) == Some((Member(m.key, Canon(m.value)), rest))
    decreases m, 0
  {
    SeqFacts.AfterTwo(RawToken(StringLiteral, m.key), Fixed(Colon), Print(m.value), rest);
    PrintThenParse(m.value, rest);
  }

  /** One turn of the MANY loop of `object` over a printed member: the comma
      and the member are consumed and the member is assigned into `acc`. */
  lemma MoreItemsStep(ms: seq<Member>, acc: seq<Member>, rest: seq<Token>)
    requires PrintableMembers(ms) && |ms| > 0 && CanonicalMembers(acc)
    ensures CanonicalMembers(Assign(acc, Member(ms[0].key, Canon(ms[0].value))))
    ensures ParseMoreItems(PrintMoreMembers(ms) + rest, acc)
         == ParseMoreItems(PrintMoreMembers(ms[1..]) + rest, Assign(acc, Member(ms[0].key, Canon(ms[0].value))))
    decreases ms, 0
  {
    var toks := PrintMoreMembers(ms) + rest;
    var after := PrintMoreMembers(ms[1..]) + rest;
    var m := Member(ms[0].key, Canon(ms[0].value));
    assert ParseObjectItem(toks[1..]) == Some((m, after)) by {
      SeqFacts.TailOfCons(Fixed(Comma), PrintMember(ms[0]), PrintMoreMembers(ms[1..]), rest);
      PrintThenParseMember(ms[0], after);
    }
    AssignCanonical(acc, m);
  }

  lemma {:induction false} PrintThenParseMoreMembers(ms: seq<Member>, acc: seq<Member>, rest: seq<Token>)
    requires PrintableMembers(ms) && CanonicalMembers(acc)
    requires !NextIs(rest, Comma)
    ensures ParseMoreItems(PrintMoreMembers(ms) + rest, acc) == Some((MergeInto(acc, CanonMembers(ms)), rest))
    decreases ms, 1
  {
    if |ms| > 0 {
      var m := Member(ms[0].key, Canon(ms[0].value));
      MoreItemsStep(ms, acc, rest);
      PrintThenParseMoreMembers(ms[1..], Assign(acc, m), rest);
      assert MergeInto(acc, CanonMembers(ms)) == MergeInto(Assign(acc, m), CanonMembers(ms[1..])) by {
        assert CanonMembers(ms)[1..] == CanonMembers(ms[1..]);
      }
    }
  }

  lemma {:induction false} PrintThenParseArray(vs: seq<Json>, rest: seq<Token>)
    requires PrintableElements(vs)
    ensures ParseArray(Print(JArray(vs)) + rest) == Some((JArray(CanonElements(vs)), rest))
    decreases vs, 1
  {
    var toks := Print(JArray(vs)) + rest;
    var close := [Fixed(RSquare)] + rest;
    SeqFacts.TailOfCons(Fixed(LSquare), PrintElements(vs), [Fixed(RSquare)], rest);
    PrintThenParseElements(vs, close);
    assert close[1..] == rest;
  }

  /** The OPTION of `array` reads back the printed elements, in order; after
      at least one element anything but a comma may follow. */
  lemma {:induction false} PrintThenParseElements(vs: seq<Json>, rest: seq<Token>)
    requires PrintableElements(vs)
    requires !NextIs(rest, Comma)
    requires |vs| == 0 ==> |rest| == 0 || rest[0].kind !in ValueStart
    ensures ParseElements(PrintElements(vs) + rest) == Some((CanonElements(vs), rest))
    decreases vs, 0
  {
    if |vs| == 0 {
      assert PrintElements(vs) + rest == rest;
    } else {
      var toks := PrintElements(vs) + rest;
      var after := PrintMoreElements(vs[1..]) + rest;
      var first := Canon(vs[0]);
      assert ParseValue(toks) == Some((first, after)) by {
        SeqFacts.Assoc(Print(vs[0]), PrintMoreElements(vs[1..]), rest);
        PrintThenParse(vs[0], after);
      }
      assert toks[0].kind in ValueStart by {
        assert toks[0].kind == StartOf(first);
      }
      AllCanonicalSnoc([], first);
      assert [] + [first] == [first];
      assert ParseElements(toks) == ParseMoreValues(after, [first]);
      PrintThenParseMoreElements(vs[1..], [first], rest);
      CanonElementsCons(vs);
    }
  }

  lemma {:induction false} PrintThenParseMoreElements(vs: seq<Json>, acc: seq<Json>, rest: seq<Token>)
    requires PrintableElements(vs)
    requires AllCanonical(acc)
    requires !NextIs(rest, Comma)
    ensures ParseMoreValues(PrintMoreElements(vs) + rest, acc) == Some((acc + CanonElements(vs), rest))
    decreases vs, 0
  {
    if |vs| == 0 {
      assert acc + CanonElements(vs) == acc;
    } else {
      var toks := PrintMoreElements(vs) + rest;
      var after := PrintMoreElements(vs[1..]) + rest;
      var next := Canon(vs[0]);
      assert ParseValue(toks[1..]) == Some((next, after)) by {
        SeqFacts.TailOfCons(Fixed(Comma), Print(vs[0]), PrintMoreElements(vs[1..]), rest);
        PrintThenParse(vs[0], after);
      }
      assert Canonical(next);
      AllCanonicalSnoc(acc, next);
      assert ParseMoreValues(toks, acc) == ParseMoreValues(after, acc + [next]);
      PrintThenParseMoreElements(vs[1..], acc + [next], rest);
      CanonElementsCons(vs);
      SeqFacts.ConsAppend(acc, next, CanonElements(vs[1..]), CanonElements(vs));
    }
  }

  // ---------------------------------------------------------------------
  // Whatever parses was printed

  /** A value of one token prints as that token. */
  lemma ScalarReprinted(t: Token)
    requires t.kind in {StringLiteral, NumberLiteral, True, False, Null}
    ensures Printable(Scalar(t)) && Print(Scalar(t)) == [t]
    ensures Canon(Scalar(t)) == Scalar(t)
  {
    match t.kind
    case StringLiteral => QuoteChop(t.image);
    case NumberLiteral =>
    case True => FixedIsOnlyToken(t);
    case False => FixedIsOnlyToken(t);
    case Null => FixedIsOnlyToken(t);
  }

  /** A value of one token was printed from itself (a string from the text
      inside its quotes). */
  lemma ScalarWasPrinted(toks: seq<Token>) returns (v0: Json)
    requires ParseValue(toks).Some? && !NextIs(toks, LCurly) && !NextIs(toks, LSquare)
    ensures Printable(v0)
    ensures toks == Print(v0) + ParseValue(toks).value.1
    ensures ParseValue(toks).value.0 == Canon(v0)
  {
    var alt := Grammar.FirstMatch(ValueFirsts, toks[0].kind).value;
    ValueAlternative(toks[0].kind, alt);
    OneTokenValue(toks, alt);
    v0 := Scalar(toks[0]);
    ScalarReprinted(toks[0]);
    assert toks == [toks[0]] + toks[1..];
  }

  lemma {:induction false} ParsedWasPrinted(toks: seq<Token>) returns (v0: Json)
    requires ParseValue(toks).Some?
    ensures Printable(v0)
    ensures toks == Print(v0) + ParseValue(toks).value.1
    ensures ParseValue(toks).value.0 == Canon(v0)
    decreases |toks|, 2
  {
    if NextIs(toks, LCurly) {
      ValueChoice(LCurly, 2);
      var ms0 := ObjectWasPrinted(toks);
      v0 := JObject(ms0);
    } else if NextIs(toks, LSquare) {
      ValueChoice(LSquare, 3);
      var vs0 := ArrayWasPrinted(toks);
      v0 := JArray(vs0);
    } else {
      v0 := ScalarWasPrinted(toks);
    }
  }

  lemma {:induction false} ObjectWasPrinted(toks: seq<Token>) returns (ms0: seq<Member>)
    requires ParseObject(toks).Some?
    ensures PrintableMembers(ms0)
    ensures toks == Print(JObject(ms0)) + ParseObject(toks).value.1
    ensures ParseObject(toks).value.0 == JObject(Merge(CanonMembers(ms0)))
    decreases |toks|, 1
  {
    ms0 := ItemsWasPrinted(toks[1..]);
    var inner := ParseItems(toks[1..]).value.1;
    FixedIsOnlyToken(toks[0]);
    FixedIsOnlyToken(inner[0]);
    SeqFacts.Enclosed(toks, Fixed(LCurly), PrintMembers(ms0), Fixed(RCurly), inner);
    assert ParseObject(toks).value.1 == inner[1..];
    assert Print(JObject(ms0)) == [Fixed(LCurly)] + PrintMembers(ms0) + [Fixed(RCurly)];
  }

  lemma {:induction false} ItemsWasPrinted(toks: seq<Token>) returns (ms0: seq<Member>)
    requires ParseItems(toks).Some?
    ensures PrintableMembers(ms0)
    ensures toks == PrintMembers(ms0) + ParseItems(toks).value.1
    ensures ParseItems(toks).value.0 == Merge(CanonMembers(ms0))
    decreases |toks|, 1
  {
    if !NextIs(toks, StringLiteral) {
      ms0 := [];
      SeqFacts.EmptyPrefix(toks, PrintMembers(ms0), ParseItems(toks).value.1);
    } else {
      var m0 := ItemWasPrinted(toks);
      var (m, after) := ParseObjectItem(toks).value;
      AssignCanonical([], m);
      var ms1 := MoreItemsWasPrinted(after, Assign([], m));
      ms0 := [m0] + ms1;
      PrintMembersCons(m0, ms1);
      SeqFacts.DropHead(m, CanonMembers(ms1));
      SeqFacts.Rebuild2(toks, PrintMember(m0), PrintMoreMembers(ms1), after, ParseItems(toks).value.1);
    }
  }

  /** A key token, the colon token and a printed value are the printed
      member of that key and value. */
  lemma ItemReprinted(toks: seq<Token>, v0: Json, rest: seq<Token>)
    requires |toks| >= 2 && toks[0].kind == StringLiteral && toks[1] == Fixed(Colon)
    requires Printable(v0) && toks[2..] == Print(v0) + rest
    ensures IsQuoted(toks[0].image)
    ensures toks == PrintMember(Member(toks[0].image, v0)) + rest
  {
    var key := toks[0];
    SeqFacts.TwoThen(toks, key, Fixed(Colon), Print(v0), rest);
    assert [RawToken(StringLiteral, key.image), Fixed(Colon)] == [key, Fixed(Colon)] by {
      assert RawToken(StringLiteral, key.image) == key;
    }
  }

  lemma {:induction false} ItemWasPrinted(toks: seq<Token>) returns (m0: Member)
    requires ParseObjectItem(toks).Some?
    ensures IsQuoted(m0.key) && Printable(m0.value)
    ensures toks == PrintMember(m0) + ParseObjectItem(toks).value.1
    ensures ParseObjectItem(toks).value.0 == Member(m0.key, Canon(m0.value))
    decreases |toks|, 0
  {
    ItemShape(toks);
    var v0 := ParsedWasPrinted(toks[2..]);
    ItemReprinted(toks, v0, ParseValue(toks[2..]).value.1);
    m0 := Member(toks[0].image, v0);
  }

  lemma {:induction false} MoreItemsWasPrinted(toks: seq<Token>, acc: seq<Member>) returns (ms0: seq<Member>)
    requires CanonicalMembers(acc)
    requires ParseMoreItems(toks, acc).Some?
    ensures PrintableMembers(ms0)
    ensures toks == PrintMoreMembers(ms0) + ParseMoreItems(toks, acc).value.1
    ensures ParseMoreItems(toks, acc).value.0 == MergeInto(acc, CanonMembers(ms0))
    decreases |toks|, 0
  {
    if !NextIs(toks, Comma) {
      ms0 := [];
    } else {
      var rest := ParseMoreItems(toks, acc).value.1;
      FixedIsOnlyToken(toks[0]);
      var m0 := ItemWasPrinted(toks[1..]);
      var (m, after) := ParseObjectItem(toks[1..]).value;
      AssignCanonical(acc, m);
      var ms1 := MoreItemsWasPrinted(after, Assign(acc, m));
      ms0 := [m0] + ms1;
      PrintMembersCons(m0, ms1);
      SeqFacts.DropHead(m, CanonMembers(ms1));
      SeqFacts.Rebuild(toks, Fixed(Comma), PrintMember(m0), PrintMoreMembers(ms1), after, rest);
    }
  }

  lemma {:induction false} ArrayWasPrinted(toks: seq<Token>) returns (vs0: seq<Json>)
    requires ParseArray(toks).Some?
    ensures PrintableElements(vs0)
    ensures toks == Print(JArray(vs0)) + ParseArray(toks).value.1
    ensures ParseArray(toks).value.0 == JArray(CanonElements(vs0))
    decreases |toks|, 1
  {
    vs0 := ElementsWasPrinted(toks[1..]);
    var inner := ParseElements(toks[1..]).value.1;
    FixedIsOnlyToken(toks[0]);
    FixedIsOnlyToken(inner[0]);
    SeqFacts.Enclosed(toks, Fixed(LSquare), PrintElements(vs0), Fixed(RSquare), inner);
    assert ParseArray(toks).value.1 == inner[1..];
    assert Print(JArray(vs0)) == [Fixed(LSquare)] + PrintElements(vs0) + [Fixed(RSquare)];
  }

  lemma {:induction false} ElementsWasPrinted(toks: seq<Token>) returns (vs0: seq<Json>)
    requires ParseElements(toks).Some?
    ensures PrintableElements(vs0)
    ensures toks == PrintElements(vs0) + ParseElements(toks).value.1
    ensures ParseElements(toks).value.0 == CanonElements(vs0)
    decreases |toks|, 3
  {
    if |toks| == 0 || toks[0].kind !in ValueStart {
      vs0 := [];
      SeqFacts.EmptyPrefix(toks, PrintElements(vs0), ParseElements(toks).value.1);
    } else {
      var v0 := ParsedWasPrinted(toks);
      var (v, after) := ParseValue(toks).value;
      AllCanonicalSnoc([], v);
      assert [] + [v] == [v];
      var vs1 := MoreElementsWasPrinted(after, [v]);
      vs0 := [v0] + vs1;
      PrintElementsCons(v0, vs1);
      SeqFacts.Rebuild2(toks, Print(v0), PrintMoreElements(vs1), after, ParseElements(toks).value.1);
    }
  }

  lemma {:induction false} MoreElementsWasPrinted(toks: seq<Token>, acc: seq<Json>) returns (vs0: seq<Json>)
    requires AllCanonical(acc)
    requires ParseMoreValues(toks, acc).Some?
    ensures PrintableElements(vs0)
    ensures toks == PrintMoreElements(vs0) + ParseMoreValues(toks, acc).value.1
    ensures ParseMoreValues(toks, acc).value.0 == acc + CanonElements(vs0)
    decreases |toks|, 0
  {
    if !NextIs(toks, Comma) {
      vs0 := [];
      assert acc + CanonElements(vs0) == acc;
    } else {
      var rest := ParseMoreValues(toks, acc).value.1;
      FixedIsOnlyToken(toks[0]);
      var v0 := ParsedWasPrinted(toks[1..]);
      var (v, after) := ParseValue(toks[1..]).value;
      AllCanonicalSnoc(acc, v);
      var vs1 := MoreElementsWasPrinted(after, acc + [v]);
      vs0 := [v0] + vs1;
      PrintElementsCons(v0, vs1);
      SeqFacts.ConsAppend(acc, v, CanonElements(vs1), CanonElements(vs0));
      SeqFacts.Rebuild(toks, Fixed(Comma), Print(v0), PrintMoreElements(vs1), after, rest);
    }
  }
}
