# MiniSym in Dafny

A model of the core of MiniSym, a small symbolic-algebra pipeline. It turns
text into tokens, tokens into an expression tree, and a tree into a
simplified tree:

- `minisym_ast.py`: the five node kinds `Number`, `Symbol`, `Add`, `Mul`
  and `Pow`, and their fully parenthesised `str` rendering. Modelled by
  `ast.dfy` (module `MinisymAst`) and `numeric.dfy` (module `Numeric`: the
  int/float numbers a `Number` holds, and Python's `+`, `*`, `1 / x` and
  `**` on them).
- `parser.py`: the `Tokenizer`, the recursive-descent `Parser` and the
  top-level `parse_expression(text)`. Modelled by `lexer.dfy` and
  `parser.dfy`. Both are imperative in Python: a cursor advanced in while
  loops, a token list appended to, and operator loops that rebind `left`.
  So each is a Dafny class whose methods run the same loops. Each method is
  proved equal to a specification function of the text or token list and
  the cursor: `LexFrom` for the scan, and `ExpressionAt`, `TermAt`,
  `FactorAt` and `PrimaryAt` for the grammar levels.
- `simplify.py`: the single-pass, post-order rewriter with its ordered
  first-match-wins rule lists. Modelled by `simplify.dfy` as pure
  functions. The rules applied to already simplified children are
  `AddRule`, `MulRule` and `PowRule`.

The properties are proved in these files:

- `lexer_props.dfy` and `parser_props.dfy`: a successful scan tiles the
  text with its tokens and whitespace, and tokens appear in increasing
  order of offset. A failed scan names the first place it fails: the text
  before the reported offset scans cleanly. The "Empty expression" error
  happens exactly for blank text.
- `parser_laws.dfy`: precedence and associativity for any operands that
  are primaries. `^` binds tighter than `*` and `/`, which bind tighter
  than `+` and `-`. `+ - * /` group to the left and `^` to the right. No
  operator other than `(` can start an expression.
- `simplify_props.dfy`: every result of `simplify` is a tree where no rule
  fires (`Normal`). So a second pass changes nothing. The one failure of
  `simplify` the model keeps is zero raised to a negative number. The
  other exceptions Python can raise out of `simplify` are listed under
  "Left out".
- `semantics.dfy`: an evaluator over the reals. Every simplification rule
  keeps the value of the tree. The parser's division by a nonzero divisor
  has the value of the quotient. Its subtraction has the value of the
  difference only when the right operand is not a Number: `x - 2` parses
  to `x` (see below).
- `plain_trees.dfy` and `roundtrip.dfy`: `parse_expression(str(e))` gives
  back `e` for every sum or product of natural numbers and identifiers.
- `examples.dfy`: the concrete inputs of the repository's tests and what
  the model gives for them.

`wrappers.dfy` holds the `Option` and `Result` types.

Modelling choices:

- A Python number is `Int(i)`, an unbounded integer, or `Float(r)`, where
  `r` is the real number the float denotes. Int/float promotion is modelled
  exactly. Float rounding is not. The simplifier's checks `value == 0` and
  `value == 1` compare values, so a float `0.0` counts as zero.
- Trees are compared by structure: same node kind, equal fields, operand
  order significant. `minisym_ast.py` defines no `__eq__`, so Python would
  compare nodes by identity. The repository's tests assert structural
  equality (test_phase1.py:40-78), and the rules at simplify.py:60, 70, 75
  and 79 only make sense with it. The model therefore uses structural
  equality on purpose. Under Python's identity comparison, those four rules
  would fire only when both operands are the same object.
- That choice decides the like-term results. parser.py:179 builds a new
  `Symbol` for every identifier token. So for parsed text, Python as written
  never finds `left.right == right.right` (simplify.py:60) or
  `left == right` (simplify.py:70) true, and it merges no parsed like
  terms: `2*x + 3*x` stays `((2 * x) + (3 * x))`. The tests at
  test_phase3.py:108-115 pass only under structural equality. Under
  structural equality, `2*x + 3*x + 4*x` simplifies to `(9 * x)` in one
  post-order pass (`SimplifyThreeLikeTerms`). Python as written gives
  `(((2 * x) + (3 * x)) + (4 * x))`, which is what the comment at
  test_phase3.py:161-163 expects.
- Every `ValueError` of the parser becomes one case of the `Error`
  datatype, with the offset, character, numeral or token it reports. The
  message texts are not modelled.
- The `ZeroDivisionError` that folding a zero base with a negative
  exponent raises out of `simplify` becomes the error result
  `ZeroToNegativePower`. It is the one failure of `simplify` the model
  keeps.

Where the repository's comments and documentation disagree with its code,
the model follows the code:

- `x - 2` parses to `x`. parser.py:123-124 negates the literal into a local
  variable that is never used (`ParseSubtractLiteral`, `SubtractMeaning`).
- `0^0` simplifies to `1` (`SimplifyZeroToZero`). The comment at
  test_phase3.py:184 expects it to stay.
- One pass of `simplify` is idempotent (`SimplifyIdempotent`). This holds
  even though the rewriter never loops to a fixed point.
- The rendering is not re-parseable in general, but it does parse back for
  plain trees (`ParseRendering`).

## Model

| member | source | states |
|---|---|---|
| Numeric.Plus | simplify.py:52 | Python's `+` on numbers: the result's value is the sum of the values, and it is an int exactly when both operands are ints |
| Numeric.Times | simplify.py:107 | Python's `*` on numbers: the result's value is the product, and it is an int exactly when both operands are ints |
| Numeric.Reciprocal | parser.py:148 | `1 / value` of a nonzero number is a float whose value times the divisor is 1 |
| Numeric.Power | simplify.py:147-153 | Python's `**` fails with ZeroDivisionError exactly for a zero base and a negative exponent. Otherwise an integral exponent always folds, to the real power of the base. The result is an int exactly for an int base and a natural int exponent |
| Numeric.IntPowAsReal | simplify.py:149 | integer exponentiation agrees with exponentiation of the same numbers as reals |
| Numeric.RealNatPowNonzero | simplify.py:149 | a nonzero base has nonzero powers, so its negative powers are defined |
| Numeric.NatText | minisym_ast.py:7-8 | `str` of a natural number is a non-empty string of digits with no leading zero |
| Numeric.DigitsValueOfNatText | parser.py:73 | `int(str(n))` is `n` for every natural number `n` |
| MinisymAst.ToString | minisym_ast.py:7-35 | every Add, Mul and Pow renders between parentheses, and an int Number renders as non-empty text |
| Lexer.NumberEnd | parser.py:63-66 | the numeral scan stops at the end of the maximal run of digits and dots from the start |
| Lexer.IdentifierEnd | parser.py:80-83 | the identifier scan stops at the end of the maximal run of letters, digits and underscores |
| Lexer.NumeralOutcome | parser.py:68-76 | a numeral is rejected exactly when it is empty, a lone `.`, or has two or more dots. An accepted numeral becomes an int exactly when it has no dot |
| Lexer.LexFrom | parser.py:34-59 | the scan fails only with an unknown character or an invalid numeral |
| Lexer.LexToken | parser.py:35-59 | one pass of the scan loop fails only with an unknown character or an invalid numeral |
| Lexer.Tokenizer.constructor | parser.py:26-29 | a new tokenizer holds the text, its cursor at 0 and no tokens |
| Lexer.Tokenizer.Tokenize | parser.py:32-59 | the scan loop ends with the token list `LexFrom` specifies for its starting state, or stops with the error `LexFrom` specifies |
| Lexer.Tokenizer.ReadNumber | parser.py:61-76 | moves the cursor over the maximal numeral and appends its int or float token at the start offset, or reports the numeral and its offset as invalid |
| Lexer.Tokenizer.ReadIdentifier | parser.py:78-86 | moves the cursor over the maximal identifier and appends it, with its start offset, as one token |
| LexerProperties.TiledSkipSpace | parser.py:38-40 | skipping a whitespace character keeps the tokens read so far tiling the text up to the cursor |
| LexerProperties.TiledAppend | parser.py:43-56 | appending the token read at the cursor keeps the token list tiling the text, up to the end of that token |
| LexerProperties.LexFromTiles | parser.py:34-59 | tiling the text up to the cursor is an invariant of the scan loop: a successful scan tiles the whole text |
| LexerProperties.LexTokenTiles | parser.py:35-59 | each pass of the loop body (whitespace, numeral, identifier, operator) preserves the tiling invariant |
| LexerProperties.LexTiles | parser.py:32-59 | in a successful scan every token is exactly what is read at its offset, and only whitespace lies before, between and after the tokens |
| LexerProperties.LexPositionsIncrease | parser.py:54-86 | token offsets lie inside the text and strictly increase |
| LexerProperties.LexFromBlank | parser.py:38-40 | scanning whitespace to the end of the text adds no token |
| LexerProperties.LexEmptyIffBlank | parser.py:34-40 | a text yields no tokens exactly when it is all whitespace |
| LexerProperties.LexFromStopsAtUnknown | parser.py:58-59 | a scan that has a rejected character ahead of its cursor fails |
| LexerProperties.LexUnknownFails | parser.py:58-59 | one character outside every class makes the whole scan fail, with no token list |
| LexerProperties.LexFromErrorCause | parser.py:34-76 | a failure from a state whose tokens tile the text up to the cursor is the first failure: the text before the reported offset scans cleanly, and at the offset there is an unknown character, or the start of a maximal numeral that neither `int` nor `float` accepts |
| LexerProperties.LexErrorCause | parser.py:34-76 | a failed scan reports its first failure: the text before the offset scans into whole tokens and whitespace, and at the offset there is an unknown character, or the start of a maximal numeral that neither `int` nor `float` accepts |
| LexerProperties.TiledKnown | parser.py:34-59 | text that scans cleanly up to an offset holds no rejected character before it |
| LexerProperties.ErrorCauseIsFirst | parser.py:34-59 | no rejected character lies before the offset a scan error names |
| MinisymParser.ExpressionAt | parser.py:109-130 | an expression consumes at least one token and stays in the list. Its only errors are end of input, unexpected token and unmatched parentheses |
| MinisymParser.ExpressionRest | parser.py:113-128 | the `+`/`-` loop stops exactly at the end or at a token that is not `+` or `-` |
| MinisymParser.TermAt | parser.py:132-154 | a term consumes at least one token and stays in the list. Its only errors are the grammar errors |
| MinisymParser.TermRest | parser.py:136-152 | the `*`/`/` loop stops exactly at the end or at a token that is not `*` or `/` |
| MinisymParser.FactorAt | parser.py:156-167 | a factor consumes at least one token, takes every `^` that follows it, and fails only with grammar errors |
| MinisymParser.FactorRest | parser.py:161-165 | the `^` loop stops exactly at the end or at a token that is not `^` |
| MinisymParser.PrimaryAt | parser.py:169-193 | a primary consumes at least one token and fails only with end of input, unexpected token or unmatched parentheses |
| MinisymParser.ParseTokens | parser.py:96-107 | "Empty expression" is raised exactly for an empty token list. Success means one expression spans every token. An expression that stops short is reported at the index of the first leftover token, strictly inside the list. Every other failure is a grammar error |
| MinisymParser.ParseText | parser.py:205-208 | "Empty expression" is raised exactly when the text yields no tokens |
| MinisymParser.Parser.constructor | parser.py:91-94 | a new parser holds the token list with its cursor at 0 |
| MinisymParser.Parser.Parse | parser.py:96-107 | `parse` returns the tree or error `ParseTokens` specifies |
| MinisymParser.Parser.ParseExpression | parser.py:109-130 | the loop's result and final cursor are the tree and next index `ExpressionAt` specifies, or its error |
| MinisymParser.Parser.ParseTerm | parser.py:132-154 | the loop's result and final cursor are those `TermAt` specifies |
| MinisymParser.Parser.ParseFactor | parser.py:156-167 | the loop's result and final cursor are those `FactorAt` specifies |
| MinisymParser.Parser.ParsePrimary | parser.py:169-193 | the result and final cursor are those `PrimaryAt` specifies |
| MinisymParser.Parser.CurrentToken | parser.py:195-199 | the token under the cursor, or "Unexpected end of input" when the cursor is past the end |
| MinisymParser.Parser.Advance | parser.py:201-203 | moves the cursor one token forward |
| MinisymParser.ParseExpression | parser.py:205-208 | tokenizing then parsing gives the tree or error `ParseText` specifies |
| ParserLaws.PrimaryFailureSpreads | parser.py:109-193 | when a primary fails, the factor, term and expression starting at it fail with the same error |
| ParserLaws.NoUnaryOperator | parser.py:169-193 | an expression cannot start with an operator token other than `(`: it fails with "Unexpected token" naming that token |
| ParserLaws.SumsGroupLeft | parser.py:109-130 | `a + b + c` parses as `(a + b) + c` for any primaries `a`, `b`, `c`, and likewise with `-` for either operator |
| ParserLaws.ProductsGroupLeft | parser.py:132-154 | `a * b * c` parses as `(a * b) * c`, and likewise with `/` for either operator |
| ParserLaws.PowersGroupRight | parser.py:156-167 | `a ^ b ^ c` parses as `a ^ (b ^ c)` |
| ParserLaws.ProductBindsTighterAfter | parser.py:109-154 | `a + b * c` parses as `a + (b * c)`, for every mix of `+`/`-` and `*`/`/` |
| ParserLaws.ProductBindsTighterBefore | parser.py:109-154 | `a * b + c` parses as `(a * b) + c`, for every mix of `+`/`-` and `*`/`/` |
| ParserLaws.PowerBindsTighterAfter | parser.py:132-167 | `a * b ^ c` parses as `a * (b ^ c)`, and likewise with `/` |
| ParserLaws.PowerBindsTighterBefore | parser.py:132-167 | `a ^ b * c` parses as `(a ^ b) * c`, and likewise with `/` |
| ParserProperties.EmptyExpressionIffBlank | parser.py:96-99 | "Empty expression" is raised exactly for empty or whitespace-only text |
| ParserProperties.UnknownCharacterFails | parser.py:58-59 | a text with a character the tokenizer rejects never parses |
| Semantics.SubtractMeaning | parser.py:121-128 | `l - r` has the value of the difference when `r` is not a Number. A Number `r` is dropped and `l` comes back unchanged |
| Semantics.DivideMeaning | parser.py:144-152 | `l / r` has the value of the quotient for a nonzero divisor, and no value for a zero one |
| Semantics.LikeTermsPreserves | simplify.py:56-67 | merging `a*R + b*R` keeps the value in all three outcomes (0, `R`, `(a+b)*R`) |
| Semantics.AddRulePreserves | simplify.py:43-83 | every Add rule keeps the value of the sum |
| Semantics.CoefficientFoldPreserves | simplify.py:110-118 | folding `a * (b*Y)` keeps the value in all three outcomes |
| Semantics.MulRulePreserves | simplify.py:91-121 | every Mul rule keeps the value of the product |
| Semantics.PowRulePreserves | simplify.py:129-156 | where a power has a value, every Pow rule succeeds and keeps that value |
| Semantics.SimplifyPreservesValue | simplify.py:9-156 | wherever a tree has a value, `simplify` succeeds and the result has the same value |
| Simplifier.Simplify | simplify.py:9-35 | the result never has more nodes than the input, and a Number or Symbol comes back unchanged |
| Simplifier.SimplifyAdd | simplify.py:37-83 | simplifying a sum never adds nodes |
| Simplifier.SimplifyMul | simplify.py:85-121 | simplifying a product never adds nodes |
| Simplifier.SimplifyPow | simplify.py:123-156 | simplifying a power never adds nodes |
| Simplifier.AddRule | simplify.py:43-83 | `x + 0` gives `x`. The result has at most the nodes of the sum. A rebuilt Add has no zero operand, not two Numbers, no like terms, and no two equal operands |
| Simplifier.MulRule | simplify.py:91-121 | `x * 1` gives `x`, and `1 * x` gives `x`. The result has at most the nodes of the product. A rebuilt Mul has no 0 or 1 operand, not two Numbers, and no Number times a scaled term |
| Simplifier.PowRule | simplify.py:129-156 | it fails exactly for a zero base and a negative Number exponent. Exponent 0 gives 1, even for `0^0`. A Pow is left only when no rule fires and the fold is not computed |
| Simplifier.CollectLikeTerms | simplify.py:158-168 | a non-Add comes back unchanged, and an Add is simplified |
| SimplifierProperties.NormalIsFixed | simplify.py:9-156 | `simplify` leaves a tree in which no rule fires exactly as it is |
| SimplifierProperties.AddRuleNormal | simplify.py:43-83 | the Add rules on normal operands give a normal tree |
| SimplifierProperties.MulRuleNormal | simplify.py:91-121 | the Mul rules on normal operands give a normal tree |
| SimplifierProperties.PowRuleNormal | simplify.py:129-156 | the Pow rules on normal operands give a normal tree |
| SimplifierProperties.SimplifyIsNormal | simplify.py:9-156 | no rule fires anywhere in a result of `simplify` |
| SimplifierProperties.SimplifyIdempotent | simplify.py:9-156 | simplifying a simplified tree changes nothing |
| SimplifierProperties.PowFreeSimplifies | simplify.py:146-153 | a tree without powers always simplifies |
| SimplifierProperties.PowFailure | simplify.py:141-153 | a power fails exactly when its children simplify to a zero Number and a negative Number |
| RoundTrip.RenderIsToString | minisym_ast.py:7-28 | a plain tree's `str` involves no float text |
| RoundTrip.LexPlain | parser.py:34-86 | scanning the text of a plain tree appends one token per leaf, parenthesis and operator and stops right after it |
| RoundTrip.LexParenthesised | parser.py:34-86 | the same for a parenthesised node, from its operands |
| RoundTrip.AppendedShape | parser.py:54-86 | those tokens keep what was scanned before and take the shape of the tree |
| RoundTrip.ParseBinary | parser.py:109-193 | `(l + r)` and `(l * r)` parse as one primary into the Add or Mul of the operands |
| RoundTrip.ParsePlain | parser.py:169-193 | tokens in the shape of a plain tree parse as one primary into that tree |
| RoundTrip.ParseShape | parser.py:96-107 | a token list that is exactly such a shape parses to the tree |
| RoundTrip.TrailingAfterShape | parser.py:96-107 | the shape of a plain tree followed by a token that no operator loop takes is rejected as leftover tokens at exactly the index after the shape |
| RoundTrip.LexRendering | parser.py:32-86 | the rendering of a plain tree scans without error into exactly its shape |
| RoundTrip.ParseRendering | parser.py:205-208 | `parse_expression(str(e))` gives back `e` for every plain tree |
| RoundTrip.RenderingInjective | minisym_ast.py:7-28 | distinct plain trees render differently |
| Examples.TokenizeSum | test_phase2.py:15-20 | `x + 2` gives identifier `x` at 0, operator `+` at 2 and number 2 at 4 |
| Examples.TokenizeFloat | test_phase2.py:68-70 | `3.14`, which the test parses to `Number(3.14)`, scans to one float token of value 3.14 |
| Examples.TokenizeUnknown | test_phase2.py:146-150 | `x @ 2` fails on `@` at offset 2 |
| Examples.TokenizeBadNumeral | test_phase2.py:153-157 | `x + 2.3.4` fails on the numeral `2.3.4` at its start offset 4 |
| Examples.NumeralBlamedWhole | parser.py:61-76 | the error for `1.2.3` is not the run `.2.3` at offset 1: a scan error names the start of the whole numeral |
| Examples.UnknownBlamedFirst | parser.py:34-59 | the error for `x @ 2.3.4` is not the numeral at offset 4: the earlier `@` fails first |
| Examples.TwoDotsRejected | parser.py:68-76 | the numeral `2.3.4` converts to nothing |
| Examples.ParseSum | test_phase2.py:51-53 | `x + 2` parses to `Add(x, 2)` |
| Examples.ParseDanglingOperator | parser.py:195-199 | `x +` raises "Unexpected end of input" |
| Examples.ParseEmpty | test_phase2.py:126-130 | the empty text raises "Empty expression" |
| Examples.ParsePrecedence | test_phase2.py:84-86 | the tokens of `2 + 3 * x` parse to `Add(2, Mul(3, x))` |
| Examples.ParseParenthesesFirst | test_phase2.py:89-91 | the tokens of `(2 + 3) * x` parse to `Mul(Add(2, 3), x)` |
| Examples.ParseSumsLeftToRight | test_phase2.py:94-96 | the tokens of `x + y * 2 + z` parse to `Add(Add(x, Mul(y, 2)), z)` |
| Examples.ParsePowersRightToLeft | parser.py:160-165 | the tokens of `x^y^z` parse to `Pow(x, Pow(y, z))` |
| Examples.ParseSubtractLiteral | parser.py:121-124 | the tokens of `x - 2` parse to `x` |
| Examples.ParseSubtractSymbol | parser.py:125-128 | the tokens of `x - y` parse to `Add(x, Mul(-1, y))` |
| Examples.ParseDivide | parser.py:147-148 | the tokens of `x / 2` parse to `Mul(x, 0.5)` with a float 0.5 |
| Examples.ParseUnclosed | test_phase2.py:133-137 | the tokens of `(x + 2` raise "Unmatched parentheses" |
| Examples.ParseUnopened | test_phase2.py:139-143 | the tokens of `x + 2)` report the leftover `)` at token index 3 |
| Examples.ParseNoUnaryMinus | test_phase3.py:123 | the tokens of `3*x + (-3)*x` fail on the `-` token: there is no unary minus |
| Examples.SimplifyLikeTerms | test_phase3.py:108-110 | `2*x + 3*x` simplifies to `(5 * x)` under structural equality |
| Examples.SimplifyThreeLikeTerms | test_phase3.py:159-163 | `2*x + 3*x + 4*x` simplifies to `(9 * x)` under structural equality |
| Examples.SimplifyDouble | test_phase3.py:113-115 | `x + x` simplifies to `(2 * x)` under structural equality |
| Examples.SimplifyCancel | test_phase3.py:122-125 | the tree of `3*x + (-3)*x` simplifies to 0 |
| Examples.SimplifyNested | test_phase3.py:166-168 | `(x + 0) * (y + 0) + (2 + 3)` simplifies to `((x * y) + 5)` |
| Examples.SimplifyZeroToZero | test_phase3.py:182-184 | `0^0` simplifies to 1 |
| Examples.SimplifyPowerFold | test_phase3.py:67-69 | `2^3` folds to 8 |
| Examples.SimplifyDivisionByZero | simplify.py:146-153 | `x / 0` fails with zero raised to -1 |
| Examples.RenderEachKind | test_phase1.py:13-35 | `42`, `x`, `(x + 42)`, `(x * 42)` and `(x ** 42)` |
| Examples.RenderScaled | test_phase3.py:108-110 | `Mul(5, x)` renders as `(5 * x)` |

## Left out

- Float text: `str` of a float (Python's shortest round-trip repr) is the parameter `floatText` of `ToString` and is not modelled. Float values are exact reals, so rounding, overflow, infinities and NaN are not modelled either. In particular, Python's `int + float` and `int * float` raise OverflowError ("int too large to convert to float") when the int is beyond the float range, at simplify.py:52, 61, 107 and 112, where nothing catches it, so the error escapes `simplify`. The model folds them exactly: for `1` followed by 309 zeros, then ` + 0.5`, it returns the exact sum.
- Numeric.Power: a power with a float operand and a non-integral exponent is `Unfolded` and the Pow node stays. Python computes a float (or, for a negative base, complex) value, and for large results an OverflowError, which also leaves the node. A complex result that becomes the exponent of a zero base makes the comparison `exp.value > 0` at simplify.py:143 raise TypeError out of `simplify` (for example `0 ^ ((0 - 8.0*1) ^ 0.5)`). In the model the inner power stays a Pow node, so no comparison happens and no error is raised.
- Character classes are ASCII. Python's `isspace`, `isdigit`, `isalpha` and `isalnum` also accept other Unicode characters.
- Error messages: each `ValueError` is an `Error` case carrying its payload. The message text is not modelled.
- `Token.__str__` and `__repr__`, the `__main__` blocks of parser.py and simplify.py, `main.py`, the demo scripts and `ast.py` only print, or are unused. They are not part of this model.
- The `repr` texts and operator overloads the tests call are not defined in `minisym_ast.py` and are not part of this model.
- Lexer.Tokenizer.constructor: Python's constructor also runs `tokenize`. Here the caller calls `Tokenize` next, as `MinisymParser.ParseExpression` does.
- MinisymParser.Parser.constructor: Python's constructor takes the text and tokenizes it. Here it takes the token list, which `MinisymParser.ParseExpression` produces first.
- MinisymAst.ToString: its contract states only the framing of each node. The texts themselves are stated by `RenderEachKind` for each kind, and by `RenderIsToString` and `ParseRendering` for plain trees.
- The round trip is stated for plain trees only: sums and products of natural-number ints and identifiers. A Pow renders with `**`, which scans as two `*` tokens. A negative int renders with a leading `-`, which cannot start a primary. A float renders as float text.
- Python's identity comparison of nodes, as discussed above: structural equality is modelled instead.
- Recursion depth: `parse_primary` calls `parse_expression` for each `(`, and `simplify` recurses once per tree level. Python stops either with a RecursionError after about 1000 nested frames. The model's recursion is unbounded, so deeply nested input that Python rejects parses and simplifies here.
- Integer-string conversion limit: from Python 3.11, `int()` of a digit string longer than 4300 digits raises ValueError, which parser.py:68-76 reports as "Invalid number", and `str()` of such an int (minisym_ast.py:7-8) raises too. The model converts numerals and integers of any length.
