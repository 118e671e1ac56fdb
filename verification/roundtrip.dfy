/**
 * Reading a rendering back. `str(e)` is meant for display, and in general it
 * does not parse back to `e`: a power renders with `**`, which the tokenizer
 * reads as two `*` operators, a negative integer renders with a leading `-`,
 * which cannot start a primary, and a float renders in Python's float text.
 * On the remaining trees, sums and products of natural numbers and identifier
 * symbols, the renderer and the parser are inverse: the rendering tokenizes
 * to one token per leaf and per parenthesis or operator, and the fully
 * parenthesised token list parses back to the same tree.
 */
module RoundTrip {
  import opened Wrappers
  import opened Numeric
  import opened MinisymAst
  import opened Lexer
  import opened MinisymParser
  import opened ParserLaws
  import opened PlainTrees

  /** For a plain tree, `str` is `Render`, whatever the float printer. */
  lemma {:induction false} RenderIsToString(e: Expr, ft: real -> string)
    requires Plain(e)
    ensures ToString(e, ft) == Render(e)
  {
    match e
    case Number(_) =>
    case Symbol(_) =>
    case Add(l, r) => RenderIsToString(l, ft); RenderIsToString(r, ft);
    case Mul(l, r) => RenderIsToString(l, ft); RenderIsToString(r, ft);
  }

  // ----- Characters of a rendering -----

  /** The characters of `(l c r)` around `l` and `r`, with a space on either side of `c`. */
  lemma ParenthesisedChars(l: string, c: char, r: string)
    ensures var s := "(" + l + [' ', c, ' '] + r + ")";
            && |s| == |l| + |r| + 5
            && s[0] == '(' && s[|l| + 1] == ' ' && s[|l| + 2] == c && s[|l| + 3] == ' ' && s[|s| - 1] == ')'
            && SpelledAt(s, 1, l) && SpelledAt(s, |l| + 4, r)
  {
    var s := "(" + l + [' ', c, ' '] + r + ")";
    assert SpelledAt(s, 1, l) by {
      forall k | 0 <= k < |l| ensures s[1 + k] == l[k] { }
    }
    assert SpelledAt(s, |l| + 4, r) by {
      forall k | 0 <= k < |r| ensures s[|l| + 4 + k] == r[k] { }
    }
  }

  /** The text of a binary node: its characters around the texts of its operands. */
  lemma BinaryRenderChars(e: Expr)
    requires Plain(e) && (e.Add? || e.Mul?)
    ensures var s, l, r := Render(e), Render(e.left), Render(e.right);
            && |s| == |l| + |r| + 5
            && s[0] == '(' && s[|l| + 1] == ' ' && s[|l| + 2] == OpChar(e) && s[|l| + 3] == ' ' && s[|s| - 1] == ')'
            && SpelledAt(s, 1, l) && SpelledAt(s, |l| + 4, r)
  {
    ParenthesisedChars(Render(e.left), OpChar(e), Render(e.right));
    assert Render(e) == "(" + Render(e.left) + [' ', OpChar(e), ' '] + Render(e.right) + ")";
  }

  /** Spelled inside a spelled string is spelled in the text. */
  lemma SpelledWithin(text: string, i: nat, s: string, j: nat, t: string, at: nat)
    requires SpelledAt(text, i, s) && SpelledAt(s, j, t) && at == i + j
    ensures SpelledAt(text, at, t)
  {
    forall k | 0 <= k < |t| ensures text[at + k] == t[k] {
      assert text[i + (j + k)] == s[j + k];
    }
  }

  /** A character of a string spelled in the text. */
  lemma CharWithin(text: string, i: nat, s: string, j: nat, at: nat)
    requires SpelledAt(text, i, s) && j < |s| && at == i + j
    ensures at < |text| && text[at] == s[j]
  {
  }

  /**
   * A text `s` laid out as `(l c r)`, spelled at offset `i`: `l` from `i + 1`
   * up to `k`, `c` between spaces, `r` from `k + 3` up to `m`, and `)` at `m`.
   */
  lemma ParenthesisedLayout(text: string, i: nat, s: string, l: string, c: char, r: string, k: nat, m: nat)
    requires SpelledAt(text, i, s) && |s| == |l| + |r| + 5
    requires s[0] == '(' && s[|l| + 1] == ' ' && s[|l| + 2] == c && s[|l| + 3] == ' ' && s[|s| - 1] == ')'
    requires SpelledAt(s, 1, l) && SpelledAt(s, |l| + 4, r)
    requires k == i + 1 + |l| && m == k + 3 + |r|
    ensures m < |text| && m + 1 == i + |s|
    ensures text[i] == '(' && text[k] == ' ' && text[k + 1] == c && text[k + 2] == ' ' && text[m] == ')'
    ensures SpelledAt(text, i + 1, l) && SpelledAt(text, k + 3, r)
  {
    SpelledWithin(text, i, s, 1, l, i + 1);
    SpelledWithin(text, i, s, |l| + 4, r, k + 3);
    CharWithin(text, i, s, 0, i);
    CharWithin(text, i, s, |l| + 1, k);
    CharWithin(text, i, s, |l| + 2, k + 1);
    CharWithin(text, i, s, |l| + 3, k + 2);
    CharWithin(text, i, s, |s| - 1, m);
  }

  /** `ParenthesisedLayout` for the text of a binary node. */
  lemma BinaryLayout(text: string, i: nat, e: Expr, k: nat, m: nat)
    requires Plain(e) && (e.Add? || e.Mul?) && SpelledAt(text, i, Render(e))
    requires k == i + 1 + |Render(e.left)| && m == k + 3 + |Render(e.right)|
    ensures m < |text| && m + 1 == i + |Render(e)|
    ensures text[i] == '(' && text[k] == ' ' && text[k + 1] == OpChar(e) && text[k + 2] == ' ' && text[m] == ')'
    ensures SpelledAt(text, i + 1, Render(e.left)) && SpelledAt(text, k + 3, Render(e.right))
  {
    BinaryRenderChars(e);
    ParenthesisedLayout(text, i, Render(e), Render(e.left), OpChar(e), Render(e.right), k, m);
  }

  // ----- Tokenizing a rendering -----

  lemma {:induction false} NumberEndAt(text: string, i: nat, j: nat)
    requires i <= j <= |text|
    requires forall k | i <= k < j :: IsNumeralChar(text[k])
    requires j == |text| || !IsNumeralChar(text[j])
    ensures NumberEnd(text, i) == j
    decreases j - i
  {
    if i < j {
      NumberEndAt(text, i + 1, j);
    }
  }

  lemma {:induction false} IdentifierEndAt(text: string, i: nat, j: nat)
    requires i <= j <= |text|
    requires forall k | i <= k < j :: IsIdentChar(text[k])
    requires j == |text| || !IsIdentChar(text[j])
    ensures IdentifierEnd(text, i) == j
    decreases j - i
  {
    if i < j {
      IdentifierEndAt(text, i + 1, j);
    }
  }

  lemma LexNatural(text: string, i: nat, n: nat, acc: seq<Token>)
    requires SpelledAt(text, i, NatText(n)) && Boundary(text, i + |NatText(n)|)
    ensures LexFrom(text, i, acc) == LexFrom(text, i + |NatText(n)|, acc + [NumberToken(Int(n), i)])
  {
    var s := NatText(n);
    var j := i + |s|;
    forall k | i <= k < j ensures IsNumeralChar(text[k]) {
      assert text[i + (k - i)] == s[k - i];
    }
    assert text[i..j] == s;
    NumberEndAt(text, i, j);
    forall k | 0 <= k < |s| ensures s[k] != '.' {
      assert IsDigit(s[k]);
    }
    DigitsValueOfNatText(n);
    assert Numeral(s) == Some(Int(n));
    assert text[i + 0] == s[0];
  }

  lemma LexName(text: string, i: nat, name: string, acc: seq<Token>)
    requires IsIdentifier(name) && SpelledAt(text, i, name) && Boundary(text, i + |name|)
    ensures LexFrom(text, i, acc) == LexFrom(text, i + |name|, acc + [IdentifierToken(name, i)])
  {
    var j := i + |name|;
    forall k | i <= k < j ensures IsIdentChar(text[k]) {
      assert text[i + (k - i)] == name[k - i];
    }
    assert text[i..j] == name;
    IdentifierEndAt(text, i, j);
    assert text[i + 0] == name[0];
  }

  lemma LexOperator(text: string, i: nat, next: nat, c: char, acc: seq<Token>)
    requires i < |text| && text[i] == c && c in "()+*" && next == i + 1
    ensures LexFrom(text, i, acc) == LexFrom(text, next, acc + [OperatorToken(c, i)])
  {
    assert c in Operators;
  }

  lemma LexSpace(text: string, i: nat, next: nat, acc: seq<Token>)
    requires i < |text| && text[i] == ' ' && next == i + 1
    ensures LexFrom(text, i, acc) == LexFrom(text, next, acc)
  {
  }

  /** The scan of `(`, a left operand and ` c `, given the scan of the operand. */
  lemma LexOpening(text: string, i: nat, k: nat, k3: nat, c: char, acc: seq<Token>, withLeft: seq<Token>)
    requires i < k && k3 == k + 3 && k3 <= |text| && c in "+*"
    requires text[i] == '(' && text[k] == ' ' && text[k + 1] == c && text[k + 2] == ' '
    requires LexFrom(text, i + 1, acc + [OperatorToken('(', i)]) == LexFrom(text, k, withLeft)
    ensures LexFrom(text, i, acc) == LexFrom(text, k3, withLeft + [OperatorToken(c, k + 1)])
  {
    LexOperator(text, i, i + 1, '(', acc);
    LexSpace(text, k, k + 1, withLeft);
    LexOperator(text, k + 1, k + 2, c, withLeft);
    LexSpace(text, k + 2, k3, withLeft + [OperatorToken(c, k + 1)]);
  }

  /** The scan of `(`, a left operand, ` c `, a right operand and `)`, given the scans of the operands. */
  lemma LexBinary(text: string, i: nat, k: nat, m: nat, j: nat, c: char,
                  acc: seq<Token>, withLeft: seq<Token>, withRight: seq<Token>)
    requires i < k && k + 3 <= m < |text| && j == m + 1 && c in "+*"
    requires text[i] == '(' && text[k] == ' ' && text[k + 1] == c && text[k + 2] == ' ' && text[m] == ')'
    requires LexFrom(text, i + 1, acc + [OperatorToken('(', i)]) == LexFrom(text, k, withLeft)
    requires LexFrom(text, k + 3, withLeft + [OperatorToken(c, k + 1)]) == LexFrom(text, m, withRight)
    ensures LexFrom(text, i, acc) == LexFrom(text, j, withRight + [OperatorToken(')', m)])
  {
    LexOpening(text, i, k, k + 3, c, acc, withLeft);
    LexOperator(text, m, j, ')', withRight);
  }

  /** One unfolding of `AppendTokens` on a binary node. */
  lemma AppendBinary(acc: seq<Token>, e: Expr, p: nat, k: nat, m: nat, withLeft: seq<Token>, withRight: seq<Token>)
    requires Plain(e) && (e.Add? || e.Mul?)
    requires k == p + 1 + |Render(e.left)| && m == k + 3 + |Render(e.right)|
    requires withLeft == AppendTokens(acc + [OperatorToken('(', p)], e.left, p + 1)
    requires withRight == AppendTokens(withLeft + [OperatorToken(OpChar(e), k + 1)], e.right, k + 3)
    ensures AppendTokens(acc, e, p) == withRight + [OperatorToken(')', m)]
  {
  }

  /**
   * Scanning `text` from `i`, with `acc` produced so far, reaches `j` having
   * appended the tokens of the plain tree `e`.
   */
  predicate ScansTo(text: string, i: nat, j: nat, e: Expr, acc: seq<Token>)
    requires Plain(e)
  {
    i <= j <= |text| && LexFrom(text, i, acc) == LexFrom(text, j, AppendTokens(acc, e, i))
  }

  /**
   * Scanning the text of a plain tree that sits at offset `i` of `text`, up
   * to `j`, and is followed by a boundary appends its tokens and moves to `j`.
   */
  lemma {:induction false} LexPlain(text: string, i: nat, j: nat, e: Expr, acc: seq<Token>)
    requires Plain(e) && SpelledAt(text, i, Render(e)) && j == i + |Render(e)| && Boundary(text, j)
    ensures ScansTo(text, i, j, e, acc)
    decreases e, 1
  {
    if e.Number? {
      LexNatural(text, i, e.value.i, acc);
    } else if e.Symbol? {
      LexName(text, i, e.name, acc);
    } else {
      LexParenthesised(text, i, j, e, acc);
    }
  }

  /** `LexPlain` for a binary node, from `LexPlain` for its operands. */
  lemma {:induction false} LexParenthesised(text: string, i: nat, j: nat, e: Expr, acc: seq<Token>)
    requires Plain(e) && (e.Add? || e.Mul?)
    requires SpelledAt(text, i, Render(e)) && j == i + |Render(e)| && Boundary(text, j)
    ensures ScansTo(text, i, j, e, acc)
    decreases e, 0
  {
    var k := i + 1 + |Render(e.left)|;
    var m := k + 3 + |Render(e.right)|;
    BinaryLayout(text, i, e, k, m);
    var open := acc + [OperatorToken('(', i)];
    var withLeft := AppendTokens(open, e.left, i + 1);
    var mid := withLeft + [OperatorToken(OpChar(e), k + 1)];
    var withRight := AppendTokens(mid, e.right, k + 3);
    LexPlain(text, i + 1, k, e.left, open);
    LexPlain(text, k + 3, m, e.right, mid);
    LexBinary(text, i, k, m, j, OpChar(e), acc, withLeft, withRight);
    AppendBinary(acc, e, i, k, m, withLeft, withRight);
  }

  // ----- Parsing a parenthesised token list -----

  /**
   * A parenthesised binary node: `(` at `i`, the left operand up to `k`, the
   * operator at `k`, the right operand up to `m` and `)` at `m`.
   */
  lemma ParseBinary(ts: seq<Token>, i: nat, e: Expr, k: nat, m: nat)
    requires (e.Add? || e.Mul?) && i < k < m < |ts|
    requires IsOp(ts[i], '(') && IsOp(ts[k], OpChar(e)) && IsOp(ts[m], ')')
    requires PrimaryAt(ts, i + 1) == Ok(Parsed(e.left, k))
    requires PrimaryAt(ts, k + 1) == Ok(Parsed(e.right, m))
    ensures PrimaryAt(ts, i) == Ok(Parsed(e, m + 1))
  {
    FactorStops(ts, i + 1, e.left, k);
    FactorStops(ts, k + 1, e.right, m);
    if e.Add? {
      TermStops(ts, i + 1, e.left, k);
      TermStops(ts, k + 1, e.right, m);
      assert ExpressionRest(ts, e.left, k) == ExpressionRest(ts, e, m) == Ok(Parsed(e, m));
    } else {
      assert TermRest(ts, e.left, k) == TermRest(ts, e, m) == Ok(Parsed(e, m));
      ExpressionStops(ts, i + 1, e, m);
    }
    assert ExpressionAt(ts, i + 1) == Ok(Parsed(e, m));
  }

  // ----- The token list of a rendering -----

  /** `longer` starts with the tokens of `ts`. */
  predicate Extends(longer: seq<Token>, ts: seq<Token>)
  {
    |ts| <= |longer| && longer[..|ts|] == ts
  }

  lemma ExtendsTransitive(a: seq<Token>, b: seq<Token>, c: seq<Token>)
    requires Extends(a, b) && Extends(b, c)
    ensures Extends(a, c)
  {
    assert a[..|b|][..|c|] == a[..|c|];
  }

  /** A shape stays in place when tokens are appended after it. */
  lemma {:induction false} TokensAtExtend(ts: seq<Token>, longer: seq<Token>, i: nat, e: Expr)
    requires Extends(longer, ts) && TokensAt(ts, i, e)
    ensures TokensAt(longer, i, e)
    decreases e
  {
    if e.Add? || e.Mul? {
      var k := i + 1 + Count(e.left);
      TokensAtExtend(ts, longer, i + 1, e.left);
      TokensAtExtend(ts, longer, k + 1, e.right);
    }
  }

  /** Tokens `(`, a left operand's shape, the operator, a right operand's shape and `)` have the node's shape. */
  lemma ShapeAssembled(ts: seq<Token>, i: nat, e: Expr, k: nat, m: nat, i1: nat, k1: nat)
    requires (e.Add? || e.Mul?) && k == i + 1 + Count(e.left) && m == k + 1 + Count(e.right) && m < |ts|
    requires i1 == i + 1 && k1 == k + 1
    requires IsOp(ts[i], '(') && IsOp(ts[k], OpChar(e)) && IsOp(ts[m], ')')
    requires TokensAt(ts, i1, e.left) && TokensAt(ts, k1, e.right)
    ensures TokensAt(ts, i, e)
  {
    assert BinaryTokensAt(ts, i, OpChar(e), e.left, e.right);
  }

  /** Appending one token keeps what was there and puts the token last. */
  lemma AppendOne(ts: seq<Token>, t: Token)
    ensures Extends(ts + [t], ts) && |ts + [t]| == |ts| + 1 && (ts + [t])[|ts|] == t
  {
  }

  /**
   * A list assembled as `acc`, one token, `withLeft`'s further tokens, one
   * token, `withRight`'s further tokens and one token keeps each earlier
   * list and its appended tokens in place.
   */
  lemma ExtendsChain(acc: seq<Token>, a1: seq<Token>, withLeft: seq<Token>,
                     a3: seq<Token>, withRight: seq<Token>, ts: seq<Token>)
    requires Extends(a1, acc) && |a1| == |acc| + 1
    requires Extends(withLeft, a1)
    requires Extends(a3, withLeft) && |a3| == |withLeft| + 1
    requires Extends(withRight, a3)
    requires Extends(ts, withRight)
    ensures Extends(ts, acc) && Extends(ts, withLeft)
    ensures ts[|acc|] == a1[|acc|] && ts[|withLeft|] == a3[|withLeft|]
  {
    ExtendsTransitive(ts, withRight, a3);
    ExtendsTransitive(ts, a3, withLeft);
    ExtendsTransitive(ts, withLeft, a1);
    ExtendsTransitive(ts, a1, acc);
  }

  /**
   * Tokens `(`, a left operand's shape, the operator, a right operand's
   * shape and `)`, the operands' shapes taken from lists that `ts` extends,
   * have the node's shape.
   */
  lemma ShapeFromParts(ts: seq<Token>, e: Expr, i: nat, i1: nat, k1: nat, withLeft: seq<Token>, withRight: seq<Token>)
    requires e.Add? || e.Mul?
    requires i1 == i + 1 && k1 == |withLeft| + 1
    requires |withLeft| == i1 + Count(e.left) && |withRight| == k1 + Count(e.right)
    requires |ts| == |withRight| + 1
    requires IsOp(ts[i], '(') && IsOp(ts[|withLeft|], OpChar(e)) && IsOp(ts[|withRight|], ')')
    requires Extends(ts, withLeft) && TokensAt(withLeft, i1, e.left)
    requires Extends(ts, withRight) && TokensAt(withRight, k1, e.right)
    ensures TokensAt(ts, i, e)
  {
    TokensAtExtend(withLeft, ts, i1, e.left);
    TokensAtExtend(withRight, ts, k1, e.right);
    ShapeAssembled(ts, i, e, |withLeft|, |withRight|, i1, k1);
  }

  /**
   * A list built from `acc` by appending `(`, a left operand's shape, the
   * operator, a right operand's shape and `)` keeps `acc` and adds exactly
   * the node's shape.
   */
  lemma ParenthesisedShape(ts: seq<Token>, e: Expr, acc: seq<Token>, a1: seq<Token>, withLeft: seq<Token>,
                           a3: seq<Token>, withRight: seq<Token>, p: nat, q: nat, m: nat, i: nat, i1: nat, k1: nat)
    requires e.Add? || e.Mul?
    requires i == |acc| && i1 == |a1| && k1 == |a3|
    requires a1 == acc + [OperatorToken('(', p)] && ShapeAppended(withLeft, a1, i1, e.left)
    requires a3 == withLeft + [OperatorToken(OpChar(e), q)] && ShapeAppended(withRight, a3, k1, e.right)
    requires ts == withRight + [OperatorToken(')', m)]
    ensures ShapeAppended(ts, acc, i, e)
  {
    AppendOne(acc, OperatorToken('(', p));
    AppendOne(withLeft, OperatorToken(OpChar(e), q));
    AppendOne(withRight, OperatorToken(')', m));
    ExtendsChain(acc, a1, withLeft, a3, withRight, ts);
    ShapeFromParts(ts, e, i, i1, k1, withLeft, withRight);
  }

  /** `ts` is `acc` followed by tokens of the shape of `e`, which start at index `i`. */
  predicate ShapeAppended(ts: seq<Token>, acc: seq<Token>, i: nat, e: Expr)
  {
    Extends(ts, acc) && |ts| == i + Count(e) && TokensAt(ts, i, e)
  }

  /**
   * Appending the tokens of a plain tree keeps what was there and adds
   * exactly its shape, from index `i`, the length of `acc`.
   */
  lemma {:induction false} AppendedShape(acc: seq<Token>, e: Expr, p: nat, i: nat)
    requires Plain(e) && i == |acc|
    ensures ShapeAppended(AppendTokens(acc, e, p), acc, i, e)
    decreases e, 1
  {
    if e.Number? {
      AppendOne(acc, NumberToken(e.value, p));
    } else if e.Symbol? {
      AppendOne(acc, IdentifierToken(e.name, p));
    } else {
      AppendedParenthesised(acc, e, p, i);
    }
  }

  /** `AppendedShape` for a binary node, from `AppendedShape` for its operands. */
  lemma {:induction false} AppendedParenthesised(acc: seq<Token>, e: Expr, p: nat, i: nat)
    requires Plain(e) && (e.Add? || e.Mul?) && i == |acc|
    ensures ShapeAppended(AppendTokens(acc, e, p), acc, i, e)
    decreases e, 0
  {
    var k := p + 1 + |Render(e.left)|;
    var m := k + 3 + |Render(e.right)|;
    var a1 := acc + [OperatorToken('(', p)];
    var withLeft := AppendTokens(a1, e.left, p + 1);
    var a3 := withLeft + [OperatorToken(OpChar(e), k + 1)];
    var withRight := AppendTokens(a3, e.right, k + 3);
    var i1, k1 := i + 1, i + 1 + Count(e.left) + 1;
    AppendBinary(acc, e, p, k, m, withLeft, withRight);
    AppendedShape(a1, e.left, p + 1, i1);
    AppendedShape(a3, e.right, k + 3, k1);
    ParenthesisedShape(AppendTokens(acc, e, p), e, acc, a1, withLeft, a3, withRight, p, k + 1, m, i, i1, k1);
  }

  // ----- Parsing the shape back -----

  /**
   * Wherever tokens of the shape of a plain tree occur in a token list, one
   * primary parsed at their start is that tree, ending just after them.
   */
  lemma {:induction false} ParsePlain(ts: seq<Token>, i: nat, e: Expr)
    requires i <= |ts| && TokensAt(ts, i, e)
    ensures PrimaryAt(ts, i) == Ok(Parsed(e, i + Count(e)))
    decreases e
  {
    if !e.Number? && !e.Symbol? {
      var k := i + 1 + Count(e.left);
      ParsePlain(ts, i + 1, e.left);
      ParsePlain(ts, k + 1, e.right);
      ParseBinary(ts, i, e, k, k + 1 + Count(e.right));
    }
  }

  /** A token list that is exactly the shape of a plain tree parses to that tree. */
  lemma ParseShape(ts: seq<Token>, e: Expr)
    requires TokensAt(ts, 0, e) && |ts| == Count(e)
    ensures ParseTokens(ts) == Ok(e)
  {
    ParsePlain(ts, 0, e);
    FactorStops(ts, 0, e, |ts|);
    TermStops(ts, 0, e, |ts|);
    ExpressionStops(ts, 0, e, |ts|);
  }

  /**
   * The shape of a plain tree followed by more tokens, the first of which no
   * grammar loop continues with, is rejected at exactly that first leftover token.
   */
  lemma TrailingAfterShape(ts: seq<Token>, e: Expr)
    requires TokensAt(ts, 0, e) && Count(e) < |ts|
    requires !IsAddOp(ts[Count(e)]) && !IsMulOp(ts[Count(e)]) && !IsOp(ts[Count(e)], '^')
    ensures ParseTokens(ts) == Err(TrailingTokens(Count(e)))
  {
    ParsePlain(ts, 0, e);
    FactorStops(ts, 0, e, Count(e));
    TermStops(ts, 0, e, Count(e));
    ExpressionStops(ts, 0, e, Count(e));
  }

  // ----- The round trip -----

  /**
   * The rendering of a plain tree tokenizes without error into one token per
   * leaf, parenthesis and operator, in the shape of the tree.
   */
  lemma LexRendering(e: Expr, ft: real -> string)
    requires Plain(e)
    ensures Lex(ToString(e, ft)).Ok?
    ensures |Lex(ToString(e, ft)).value| == Count(e)
    ensures TokensAt(Lex(ToString(e, ft)).value, 0, e)
  {
    var text := ToString(e, ft);
    RenderIsToString(e, ft);
    assert SpelledAt(text, 0, Render(e)) by {
      forall k | 0 <= k < |text| ensures text[0 + k] == Render(e)[k] { }
    }
    LexPlain(text, 0, |text|, e, []);
    assert LexFrom(text, |text|, AppendTokens([], e, 0)) == Ok(AppendTokens([], e, 0));
    AppendedShape([], e, 0, 0);
  }

  /** `parse_expression(str(e))` gives back `e` for every plain tree. */
  lemma ParseRendering(e: Expr, ft: real -> string)
    requires Plain(e)
    ensures ParseText(ToString(e, ft)) == Ok(e)
  {
    LexRendering(e, ft);
    ParseShape(Lex(ToString(e, ft)).value, e);
  }

  /** Distinct plain trees render differently. */
  lemma RenderingInjective(a: Expr, b: Expr, ft: real -> string)
    requires Plain(a) && Plain(b)
    requires ToString(a, ft) == ToString(b, ft)
    ensures a == b
  {
    ParseRendering(a, ft);
    ParseRendering(b, ft);
  }
}
