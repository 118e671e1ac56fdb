/**
 * The plain trees, the sums and products of natural numbers and identifier
 * symbols, their text (`Render`), and the shapes that text takes when it
 * is scanned (`AppendTokens`) and in a token list (`TokensAt`).
 */
module PlainTrees {
  import opened Numeric
  import opened MinisymAst
  import opened Lexer

  /** A name the tokenizer reads as a single identifier. */
  predicate IsIdentifier(name: string)
  {
    |name| > 0 && IsIdentStart(name[0]) && forall k | 0 <= k < |name| :: IsIdentChar(name[k])
  }

  /** Trees built from natural-number Ints and identifier Symbols by Add and Mul. */
  predicate Plain(e: Expr)
  {
    match e
    case Number(v) => v.Int? && v.i >= 0
    case Symbol(name) => IsIdentifier(name)
    case Add(l, r) => Plain(l) && Plain(r)
    case Mul(l, r) => Plain(l) && Plain(r)
    case Pow(_, _) => false
  }

  /** The operator character of a plain Add or Mul. */
  function OpChar(e: Expr): char
    requires e.Add? || e.Mul?
  {
    if e.Add? then '+' else '*'
  }

  /**
   * The text of a plain tree: what `str` gives for it, which involves no
   * float and so no float printer.
   */
  function Render(e: Expr): string
    requires Plain(e)
  {
    match e
    case Number(v) => NatText(v.i)
    case Symbol(name) => name
    case Add(l, r) => "(" + Render(l) + " + " + Render(r) + ")"
    case Mul(l, r) => "(" + Render(l) + " * " + Render(r) + ")"
  }

  /** `text` holds `s` from offset `i` on. */
  predicate SpelledAt(text: string, i: nat, s: string)
  {
    i + |s| <= |text| && forall k | 0 <= k < |s| :: text[i + k] == s[k]
  }

  /** A character that ends both a numeral and an identifier, or the end of the text. */
  predicate Boundary(text: string, j: nat)
  {
    j >= |text| || (!IsNumeralChar(text[j]) && !IsIdentChar(text[j]))
  }

  /**
   * `acc` followed by the tokens of the rendering of a plain tree placed at
   * offset `p` of a text, in the order the scan produces them.
   */
  function AppendTokens(acc: seq<Token>, e: Expr, p: nat): seq<Token>
    requires Plain(e)
    decreases e
  {
    if e.Number? then acc + [NumberToken(e.value, p)]
    else if e.Symbol? then acc + [IdentifierToken(e.name, p)]
    else
      var k := p + 1 + |Render(e.left)|;
      var m := k + 3 + |Render(e.right)|;
      var withLeft := AppendTokens(acc + [OperatorToken('(', p)], e.left, p + 1);
      var withRight := AppendTokens(withLeft + [OperatorToken(OpChar(e), k + 1)], e.right, k + 3);
      withRight + [OperatorToken(')', m)]
  }

  /** The number of tokens of the rendering of a tree. */
  function Count(e: Expr): nat
  {
    match e
    case Number(_) => 1
    case Symbol(_) => 1
    case Add(l, r) => Count(l) + Count(r) + 3
    case Mul(l, r) => Count(l) + Count(r) + 3
    case Pow(b, x) => Count(b) + Count(x) + 3
  }

  /**
   * The tokens from index `i` of `ts` on have the shape of the rendering of
   * the plain tree `e`, positions aside.
   */
  predicate TokensAt(ts: seq<Token>, i: nat, e: Expr)
    decreases Size(e), 1
  {
    match e
    case Number(v) => i < |ts| && ts[i].NumberToken? && ts[i].value == v
    case Symbol(name) => i < |ts| && ts[i].IdentifierToken? && ts[i].name == name
    case Add(l, r) => BinaryTokensAt(ts, i, '+', l, r)
    case Mul(l, r) => BinaryTokensAt(ts, i, '*', l, r)
    case Pow(_, _) => false
  }

  /** The tokens from index `i` of `ts` on have the shape of `(l c r)`. */
  predicate BinaryTokensAt(ts: seq<Token>, i: nat, c: char, l: Expr, r: Expr)
    decreases Size(l) + Size(r) + 1, 0
  {
    var k := i + 1 + Count(l);
    var m := k + 1 + Count(r);
    && m < |ts| && IsOp(ts[i], '(') && IsOp(ts[k], c) && IsOp(ts[m], ')')
    && TokensAt(ts, i + 1, l) && TokensAt(ts, k + 1, r)
  }
}
