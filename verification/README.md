# The chevrotain playground grammars in Dafny

The playground of the chevrotain parser library ships two example grammars
in `playground/examples.js`.

- **JSON.** Rules `object`, `objectItem`, `array` and `value` build JavaScript
  values while parsing. Members are merged with `_.assign`. A string keeps the
  text between its quotes, escapes and all. A key keeps its quotes.
- **Calculator.** Rules `expression`, `additionExpression`,
  `multiplicationExpression`, `atomicExpression` and `parenthesisExpression`
  evaluate arithmetic while parsing. The token classes form a small hierarchy:
  `AdditionOperator` and `MultiplicationOperator` are abstract parents that the
  lexer never produces. The script defines a `canTokenTypeBeInsertedInRecovery`
  predicate that refuses number literals. It attaches the predicate at line
  252 to a prototype object that line 257 then discards, so a running
  calculator never consults it. The model states the predicate as written.

This project models both grammars as pure LL(1) recursive-descent functions.
Each rule takes a token sequence and returns `None` on a syntax error, or the
value it built together with the tokens left over. Each is paired with an
independent meaning:

- **JSON.** A printer `Print` and a canonicaliser `Canon` (merge members the
  way `_.assign` does). Two lemmas connect them to the parser:
  - `PrintThenParse`: parsing what was printed gives the canonical value.
  - `ParsedWasPrinted`: everything the parser accepts was printed from some
    value, and the parse result is that value's canonical form.
- **Calculator.** An expression tree `Expr` that records its parentheses. It
  comes with a reference evaluator `Value`, a writer `Render`, and a
  `WellFormed` condition (no parentheses are missing). The four operators
  are a parameter `Arith.Ops` of the parser and of `Value`, so the grammar's
  proofs hold for any arithmetic; `Arith.Js` is the playground's. Two lemmas
  connect them to the parser:
  - `ExpressionSound`: parsing a written well-formed tree computes its value.
  - `ExpressionComplete`: every accepted token sequence is a written
    well-formed tree, and the parser computed its value.

  Precedence and left associativity follow from these two lemmas. The
  playground's samples are proved as instances.

Files:

| file | contents |
|---|---|
| `wrappers.dfy` | `Option` |
| `seq_facts.dfy` | Concatenation facts |
| `grammar.dfy` | The engine parts both grammars use: OR as first matching alternative; the lexer's SKIPPED group |
| `json_tokens.dfy` | JSON tokens |
| `json_value.dfy` | JSON values |
| `json_parser.dfy` | The JSON rules |
| `json_printer.dfy` | Printer, `Canon`, and the two-way connection |
| `json_properties.dfy` | Dispatch, duplicate keys, escapes, and the samples |
| `decimal.dfy` | The digit strings `parseInt` reads |
| `calc_tokens.dfy` | Calculator token hierarchy and insertion policy |
| `arith.dfy` | Calculator numbers and the operators as a parameter |
| `calc_parser.dfy` | The calculator rules |
| `calc_syntax.dfy` | `Expr`, `Value`, `Render`, and soundness/completeness |
| `calc_examples.dfy` | Associativity, precedence, and the samples |

## Model

| member | source | states |
|---|---|---|
| Grammar.FirstMatch | playground/examples.js:86-108 | OR picks an alternative whose FIRST set holds the next token, with no earlier alternative matching, and fails only when no alternative matches |
| Grammar.DisjointChoiceIsUnique | playground/examples.js:86-108 | When the FIRST sets are pairwise disjoint, OR picks alternative i exactly when the token is in FIRST(i) |
| Grammar.UnskippedIgnoresSkipped | playground/examples.js:21-23 | Inserting or deleting a SKIPPED token anywhere does not change the stream the parser receives |
| Grammar.UnskippedKeepsClean | playground/examples.js:21-23 | A stream with no SKIPPED tokens reaches the parser unchanged |
| Grammar.UnskippedIdempotent | playground/examples.js:21-23 | Skipping white space twice is the same as skipping it once |
| JsonTokens.FixedIsOnlyToken | playground/examples.js:8-16 | A punctuation or keyword class has exactly one lexable token, the one with its fixed text |
| JsonParser.ParseValue | playground/examples.js:86-109 | A parsed value consumes at least one token and starts with the token class of its kind. Every object inside it has distinct keys |
| JsonParser.ParseObject | playground/examples.js:39-57 | An accepted object starts with `{`, consumes input, and yields an object whose keys are distinct |
| JsonParser.ParseItems | playground/examples.js:43-53 | The OPTION yields the empty object, consuming nothing, when the next token is not a string literal |
| JsonParser.ParseItemList | playground/examples.js:43-53 | Inside the OPTION, the first item and the MANY loop leave a suffix of the input and an object with distinct keys |
| JsonParser.ParseObjectItem | playground/examples.js:59-68 | An item's key is the string literal's image with its quotes |
| JsonParser.ParseMoreItems | playground/examples.js:45-52 | The MANY loop stops only where the next token is not a comma, and it keeps keys distinct |
| JsonParser.ParseArray | playground/examples.js:70-83 | An accepted array starts with `[` and consumes input |
| JsonParser.ParseElements | playground/examples.js:73-79 | The OPTION yields the empty array, consuming nothing, when the next token starts no value |
| JsonParser.ParseMoreValues | playground/examples.js:75-78 | The MANY loop stops only where the next token is not a comma |
| JsonParser.Chop | playground/examples.js:89-91 | `substr(1, length - 2)` gives the text between the first and last characters, and the empty string for an image shorter than two |
| JsonParser.ParseDocument | playground/examples.js:122-126 | The default rule `object` on the lexed input: a result is an object with distinct keys that leaves fewer tokens than the parser received, and input of white space only is rejected |
| JsonParser.WhiteSpaceIgnored | playground/examples.js:21-23 | White space anywhere in the lexed input does not change the parse |
| JsonParser.CleanInputUnchanged | playground/examples.js:21-26 | Input without white space reaches the `object` rule unchanged |
| JsonValue.Assign | playground/examples.js:44 | `_.assign(obj, {k: v})` makes k look up v and leaves every other key's lookup unchanged; the position it writes to is stated by `AssignInPlace` |
| JsonValue.AssignInPlace | playground/examples.js:44 | On an object with distinct keys, `_.assign` writes in place: every property keeps its position, and only the one under the assigned key takes the new value |
| JsonValue.AssignDistinct | playground/examples.js:44 | Assigning keeps keys distinct |
| JsonValue.MergeLookup | playground/examples.js:44-51 | After the merge, each key looks up the value of its last occurrence |
| JsonValue.MergeDistinct | playground/examples.js:44-51 | The merge has distinct keys, and exactly the keys of its input |
| JsonValue.MergeOfDistinct | playground/examples.js:44-51 | Members whose keys are already distinct are kept as they are, in order |
| JsonPrinter.ChopQuote | playground/examples.js:89-91 | Chopping the quotes off a quoted string gives back the string |
| JsonPrinter.QuoteChop | playground/examples.js:89-91 | Quoting a chopped string literal gives back the literal |
| JsonPrinter.ValueFirstsDisjoint | playground/examples.js:86-108 | The seven alternatives of `value` have pairwise disjoint FIRST sets |
| JsonPrinter.PrintThenParse | playground/examples.js:86-109 | Parsing a printed value, followed by anything, gives its canonical form and leaves exactly what followed |
| JsonPrinter.PrintThenParseObject | playground/examples.js:39-57 | Parsing a printed object gives the `_.assign` merge of its members, in order |
| JsonPrinter.PrintThenParseArray | playground/examples.js:70-83 | Parsing a printed array gives its elements in order |
| JsonPrinter.PrintThenParseItems | playground/examples.js:43-53 | The OPTION reads back printed members as their `_.assign` merge. After at least one member any token but a comma may follow |
| JsonPrinter.PrintThenParseMoreMembers | playground/examples.js:45-52 | The MANY loop of `object` reads back comma-separated printed members, assigning each into what was read so far |
| JsonPrinter.PrintThenParseElements | playground/examples.js:73-79 | The OPTION of `array` reads back printed elements in order. After at least one element any token but a comma may follow |
| JsonPrinter.ParsedWasPrinted | playground/examples.js:86-109 | Every accepted value is the printing of some value followed by the rest, and the result is that value's canonical form |
| JsonPrinter.ObjectWasPrinted | playground/examples.js:39-57 | Every accepted object is printed members between braces, and the result is their merge |
| JsonPrinter.ArrayWasPrinted | playground/examples.js:70-83 | Every accepted array is printed elements between brackets, and the result keeps their order |
| JsonProperties.LiteralDispatch | playground/examples.js:88-93 | A string literal gives its text between the quotes, and a number literal gives its lexeme, each consuming one token |
| JsonProperties.KeywordDispatch | playground/examples.js:96-107 | `true`, `false` and `null` give the values they name, consuming one token |
| JsonProperties.CompoundDispatch | playground/examples.js:94-95 | `{` delegates to `object` and `[` to `array` |
| JsonProperties.NonValueRejected | playground/examples.js:87-108 | A token that starts no alternative is a syntax error |
| JsonProperties.LaterDuplicateKeyWins | playground/examples.js:39-57 | An accepted object maps every key to the value of its last occurrence in the text, and has no other keys |
| JsonProperties.EscapesKept | playground/examples.js:89-91 | `"a\nb"` gives the four characters a, backslash, n, b: escapes are not decoded |
| JsonProperties.DuplicateMerged | playground/examples.js:44-51 | Merging `"a": 1` and then `"a": 2` keeps only the second |
| JsonProperties.DuplicateKeySample | playground/examples.js:39-57 | `{"a":1,"a":2}` is the one-property object `{"a": 2}`, with the key still quoted |
| JsonProperties.ValidSampleParses | playground/examples.js:273-279 | The Valid sample gives four properties in order: keys quoted, strings unquoted, `true`, and the number lexeme `25` |
| JsonProperties.MalformedObjectRejected | playground/examples.js:281-293 | Without `{`, or with the first key not followed by `:`, an object is a syntax error |
| JsonProperties.MoreItemsMissingColon | playground/examples.js:45-52 | Inside the MANY loop of `object`, after any printed members and whatever was read before them, a key after a comma that is not followed by `:` is a syntax error |
| JsonProperties.MissingColonRejected | playground/examples.js:281-286 | After one or more members and a comma, a key not followed by `:` makes the object a syntax error |
| JsonProperties.DoubledCommaRejected | playground/examples.js:295-300 | A comma followed by a comma is a syntax error in both MANY loops |
| JsonProperties.MissingCommaRejected | playground/examples.js:302-308 | After one or more members, any token but `,` or `}`, such as the next key, makes the object a syntax error |
| JsonProperties.MissingArrayCommaRejected | playground/examples.js:310-315 | After one or more values, any token but `,` or `]`, such as the next value, makes the array a syntax error |
| JsonProperties.SpacedItemSkipped | playground/examples.js:21-23 | A line typed with white space before the key and after the colon reaches the parser as key, colon, value and what ends the line |
| JsonProperties.ValidTypedSkipped | playground/examples.js:273-279 | The Valid sample as typed, with its line breaks, tabs and blanks, reaches the parser as the sample's tokens |
| JsonProperties.ValidSampleTyped | playground/examples.js:273-279 | The Valid sample as typed is, through the default rule, the object of its four properties |
| Decimal.ParseInt | playground/examples.js:227 | `parseInt(_, 10)` of n digits is below 10^n |
| Decimal.ParsePositive | playground/examples.js:148 | A literal matching `[1-9]\d*` of n digits reads as at least 10^(n-1), so it is positive |
| Decimal.ParseShow | playground/examples.js:227 | `parseInt(_, 10)` of the decimal numeral of n is n |
| Decimal.ShowParse | playground/examples.js:148 | Every literal matching `[1-9]\d*` is the numeral of the number `parseInt` gives it |
| CalcTokens.NumberTokenOfValue | playground/examples.js:148 | Every number token reads as a positive number, and is the token of that number |
| CalcTokens.AbstractClassesHaveNoTokens | playground/examples.js:135-144 | A class has no lexable token exactly when it is one of the two NA parents |
| CalcTokens.OperatorCategories | playground/examples.js:138-144 | A token is an AdditionOperator exactly when it is Plus or Minus, and a MultiplicationOperator exactly when it is Multi or Div |
| CalcTokens.InsertionPolicy | playground/examples.js:248-254 | The predicate as written, which line 257 discards, allows a lexed class exactly when the class fixes the token's text, which a number literal's does not; it allows white space though its text is not fixed |
| Arith.Add | playground/examples.js:188 | `value += rhsVal` stays finite exactly when both operands are finite |
| Arith.Sub | playground/examples.js:190 | `value -= rhsVal` stays finite exactly when both operands are finite |
| Arith.Mul | playground/examples.js:211 | `value *= rhsVal` stays finite exactly when both operands are finite |
| Arith.Divide | playground/examples.js:212-214 | `value /= rhsVal` stays finite exactly when both operands are finite and the divisor is not zero |
| CalcParser.LiteralValue | playground/examples.js:227 | A number literal's value is finite and at least 1 |
| CalcParser.ParseExpression | playground/examples.js:166-168 | An expression consumes input and stops only where no operator follows |
| CalcParser.AddTail | playground/examples.js:178-192 | The addition loop leaves a suffix of its input and stops only where no addition operator follows; if none of the multiplication operators came first, none follows either |
| CalcParser.MulTail | playground/examples.js:200-215 | The multiplication loop leaves a suffix of its input and stops only where no multiplication operator follows |
| CalcParser.ParseParen | playground/examples.js:232-240 | A parenthesised expression starts with `(` and consumes input |
| CalcParser.Calculate | playground/examples.js:261-265 | The default rule `expression` with JavaScript's arithmetic on the lexed input: white space alone is rejected, and a result leaves fewer tokens than the input, all of them from the input, none white space, and not an operator first |
| CalcParser.ParseAtom | playground/examples.js:221-230 | An atom starts with `(` or a number and consumes input |
| CalcParser.ParseMul | playground/examples.js:198-218 | A product consumes input and stops only where no multiplication operator follows |
| CalcParser.ParseAdd | playground/examples.js:173-195 | A sum consumes input and stops only where no operator follows |
| CalcParser.WhiteSpaceIgnored | playground/examples.js:149-151 | White space anywhere in the lexed input does not change the result |
| CalcParser.CleanInputUnchanged | playground/examples.js:149-151 | Input without white space reaches the `expression` rule unchanged |
| CalcSyntax.Bracket | playground/examples.js:170-172 | Any tree can be parenthesised into a well-formed tree with the same operators and operands in the same places |
| CalcSyntax.BracketValue | playground/examples.js:232-240 | The added parentheses do not change the value |
| CalcSyntax.BracketParses | playground/examples.js:166-240 | Any tree, written with the parentheses `Bracket` adds and followed by no operator, parses to the tree's value |
| CalcSyntax.BracketWellFormed | playground/examples.js:170-172 | A well-formed tree needs no more parentheses |
| CalcSyntax.OperatorToken | playground/examples.js:187-191 | Each operator token is the fixed token of exactly one operator, and it is an AdditionOperator exactly for + and - |
| CalcSyntax.MulTailStep | playground/examples.js:203-215 | One round of the multiplication loop applies `*` for Multi and `/` otherwise, then continues from the new value |
| CalcSyntax.AddTailStep | playground/examples.js:178-192 | One round of the addition loop applies `+` for Plus and `-` otherwise, then continues from the new value |
| CalcSyntax.LiteralSound | playground/examples.js:227 | A written number parses as an atom to its value |
| CalcSyntax.ParenSound | playground/examples.js:232-240 | A written parenthesised well-formed tree parses to the value of what it encloses |
| CalcSyntax.AtomSound | playground/examples.js:221-240 | A written number or parenthesised tree parses as an atom to its value |
| CalcSyntax.MulSound | playground/examples.js:198-218 | A written product parses to its value folded from the left |
| CalcSyntax.AddSound | playground/examples.js:173-195 | A written sum parses to its value folded from the left |
| CalcSyntax.ExpressionSound | playground/examples.js:166-240 | A written well-formed tree, followed by no operator, parses to its value and leaves exactly what followed |
| CalcSyntax.AtomComplete | playground/examples.js:221-240 | Every accepted atom is a written number or parenthesised tree, and its value is the tree's |
| CalcSyntax.MulComplete | playground/examples.js:198-218 | Every accepted product is a written well-formed product, and its value is the tree's |
| CalcSyntax.AddComplete | playground/examples.js:173-195 | Every accepted sum is a written well-formed tree, and its value is the tree's |
| CalcSyntax.ExpressionComplete | playground/examples.js:166-240 | Every accepted expression is a written well-formed tree followed by the rest, and the computed value is that tree's value |
| CalcExamples.SubtractionAssociatesLeft | playground/examples.js:178-192 | `x - y - z` computes `(x - y) - z` for all operands that bind at least as tightly as a product |
| CalcExamples.SubtractionIsNotRightAssociative | playground/examples.js:178-192 | On three positive numbers, `a - b - c` computes `(a - b) - c`, which always differs from `a - (b - c)` |
| CalcExamples.DivisionAssociatesLeft | playground/examples.js:203-215 | `x / y / z` computes `(x / y) / z`, for a product or tighter on the left and numbers or parenthesised expressions on the right |
| CalcExamples.MultiplicationBindsTighter | playground/examples.js:170-218 | `x + y * z` is `x + (y * z)` and `x * y + z` is `(x * y) + z` |
| CalcExamples.ParenthesisTreeValue | playground/examples.js:321 | The tree of "2 * ( 3 + 7)" evaluates to 20 with JavaScript's arithmetic |
| CalcExamples.PrecedenceTreeValue | playground/examples.js:322 | The tree of "2 + 4 * 5 / 10" evaluates to 4 with JavaScript's arithmetic |
| CalcExamples.ParenthesisPrecedence | playground/examples.js:321 | "2 * ( 3 + 7)" computes 20 |
| CalcExamples.OperatorPrecedence | playground/examples.js:322 | "2 + 4 * 5 / 10" computes 4 |
| CalcExamples.SpacedSkipped | playground/examples.js:149-151 | Blanks typed between tokens never reach the parser |
| CalcExamples.ParenthesisSampleTyped | playground/examples.js:321 | The sample as typed, blanks included, calculates to 20 |
| CalcExamples.PrecedenceSampleTyped | playground/examples.js:322 | The sample as typed, blanks included, calculates to 4 |

## Left out

- The chevrotain engine is not modelled. That covers `performSelfAnalysis`, the lookahead tables, `SUBRULE` indices and the rule-stack bookkeeping. OR, OPTION, MANY and CONSUME are modelled directly as LL(1) choices on the next token, which is what the analysis computes for these grammars.
- Error recovery is not modelled: single-token insertion and deletion, re-synchronisation, and the partial results the malformed samples produce. Every syntax error is `None`. `canTokenTypeBeInsertedInRecovery` is modelled only as the predicate it is.
- The lexers' regular expressions are not modelled. Tokens are given as already lexed, constrained by `Lexable`: fixed texts, a quoted JSON string literal, a calculator number matching `[1-9]\d*`, and non-empty white space. The JSON number syntax is not checked. In the "1 + @@1 + 1" sample the lexer reports `@@` as an unidentified token and the calculation goes on; lexing and its error recovery are not modelled.
- Prototype wiring is not modelled. Line 257 replaces `Calculator.prototype` after line 252 set `canTokenTypeBeInsertedInRecovery` on the old prototype, so the policy in force is the library parser's default. That default is not part of this model; `CanTokenTypeBeInsertedInRecovery` is the predicate the source writes.
- The `samples` table and the objects the two factory functions return (`lexer`, `parser`, `defaultRule`) are not modelled. The default rules are modelled as `ParseDocument` (`object`) and `Calculate` (`expression`).
- Neither grammar requires the whole input to be consumed: a rule returns the tokens after it. The playground's report of left-over input is not modelled.
- JSON numbers: `Number(image)` and IEEE doubles are not modelled. A number value keeps its lexeme (`JNumber`).
- JSON objects: JavaScript enumerates integer-like keys first. Every key here keeps its quotes, so none is integer-like, and insertion order is the only order.
- CalcParser.LiteralValue: `parseInt` is exact here. A JavaScript number loses precision above 2^53, and a literal of 309 or more digits is `Infinity`.
- Arith: calculator values are exact reals, not doubles. Exact reals reach `NonFinite` only by dividing by zero. A double also overflows to an infinity: a literal of 309 or more digits, or a sum or product beyond about 1.8e308. Doubles also round at every step. Every non-finite result is one value, `NonFinite`, that absorbs every later operation. In JavaScript an infinity can turn finite again (`1 / (1 / 0)` is 0).
- White space is modelled only as a token class in the lexed input. The blank typed in the samples is one space.
