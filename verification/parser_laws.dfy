/**
 * Precedence and associativity of the grammar, stated for any operands that
 * are primaries (a number, an identifier or a parenthesised expression):
 * `^` binds tighter than `*` and `/`, which bind tighter than `+` and `-`;
 * `+ - * /` group to the left and `^` groups to the right.
 */
module ParserLaws {
  import opened Wrappers
  import opened MinisymAst
  import opened Lexer
  import opened MinisymParser

  // ----- A level's loop that meets no operator of its own -----

  lemma FactorStops(ts: seq<Token>, i: nat, e: Expr, j: nat)
    requires i <= |ts| && PrimaryAt(ts, i) == Ok(Parsed(e, j))
    requires j == |ts| || !IsOp(ts[j], '^')
    ensures FactorAt(ts, i) == Ok(Parsed(e, j))
  {
  }

  lemma TermStops(ts: seq<Token>, i: nat, e: Expr, j: nat)
    requires i <= |ts| && FactorAt(ts, i) == Ok(Parsed(e, j))
    requires j == |ts| || !IsMulOp(ts[j])
    ensures TermAt(ts, i) == Ok(Parsed(e, j))
  {
  }

  lemma ExpressionStops(ts: seq<Token>, i: nat, e: Expr, j: nat)
    requires i <= |ts| && TermAt(ts, i) == Ok(Parsed(e, j))
    requires j == |ts| || !IsAddOp(ts[j])
    ensures ExpressionAt(ts, i) == Ok(Parsed(e, j))
  {
  }

  /** A primary followed by a `+`/`-` token, or by nothing else the grammar continues with, is a whole term. */
  lemma PrimaryIsTerm(ts: seq<Token>, i: nat, e: Expr, j: nat)
    requires i <= |ts| && PrimaryAt(ts, i) == Ok(Parsed(e, j))
    requires j == |ts| || (!IsMulOp(ts[j]) && !IsOp(ts[j], '^'))
    ensures FactorAt(ts, i) == Ok(Parsed(e, j))
    ensures TermAt(ts, i) == Ok(Parsed(e, j))
  {
    FactorStops(ts, i, e, j);
    TermStops(ts, i, e, j);
  }

  /** A primary that fails makes the factor, term and expression starting there fail alike. */
  lemma PrimaryFailureSpreads(ts: seq<Token>, i: nat)
    requires i <= |ts| && PrimaryAt(ts, i).Err?
    ensures FactorAt(ts, i) == PrimaryAt(ts, i)
    ensures TermAt(ts, i) == PrimaryAt(ts, i)
    ensures ExpressionAt(ts, i) == PrimaryAt(ts, i)
  {
  }

  /**
   * There are no unary operators: an expression cannot start with an
   * operator token other than `(`, and the error names that token.
   */
  lemma NoUnaryOperator(ts: seq<Token>, i: nat)
    requires i < |ts| && ts[i].OperatorToken? && ts[i].op != '('
    ensures ExpressionAt(ts, i) == Err(UnexpectedToken(ts[i]))
  {
    PrimaryFailureSpreads(ts, i);
  }

  // ----- Three primaries and two operators -----

  /**
   * From `i`, the primary `a` up to `j`, an operator token at `j`, the
   * primary `b` up to `k`, an operator token at `k` and the primary `c` up
   * to `m`, after which no operator of any level follows.
   */
  predicate ThreePrimaries(ts: seq<Token>, i: nat, a: Expr, j: nat, b: Expr, k: nat, c: Expr, m: nat)
  {
    && i <= |ts| && PrimaryAt(ts, i) == Ok(Parsed(a, j))
    && j < |ts| && PrimaryAt(ts, j + 1) == Ok(Parsed(b, k))
    && k < |ts| && PrimaryAt(ts, k + 1) == Ok(Parsed(c, m))
    && (m == |ts| || (!IsAddOp(ts[m]) && !IsMulOp(ts[m]) && !IsOp(ts[m], '^')))
  }

  /** `a + b + c` is `(a + b) + c`, with `-` in place of either `+` alike. */
  lemma SumsGroupLeft(ts: seq<Token>, i: nat, a: Expr, j: nat, b: Expr, k: nat, c: Expr, m: nat)
    requires ThreePrimaries(ts, i, a, j, b, k, c, m)
    requires IsAddOp(ts[j]) && IsAddOp(ts[k])
    ensures ExpressionAt(ts, i) == Ok(Parsed(Additive(ts[k], Additive(ts[j], a, b), c), m))
  {
    PrimaryIsTerm(ts, i, a, j);
    PrimaryIsTerm(ts, j + 1, b, k);
    PrimaryIsTerm(ts, k + 1, c, m);
    var ab := Additive(ts[j], a, b);
    var abc := Additive(ts[k], ab, c);
    assert ExpressionRest(ts, abc, m) == Ok(Parsed(abc, m));
    assert ExpressionRest(ts, ab, k) == ExpressionRest(ts, abc, m);
    assert ExpressionRest(ts, a, j) == ExpressionRest(ts, ab, k);
  }

  /** `a * b * c` is `(a * b) * c`, with `/` in place of either `*` alike. */
  lemma ProductsGroupLeft(ts: seq<Token>, i: nat, a: Expr, j: nat, b: Expr, k: nat, c: Expr, m: nat)
    requires ThreePrimaries(ts, i, a, j, b, k, c, m)
    requires IsMulOp(ts[j]) && IsMulOp(ts[k])
    ensures TermAt(ts, i) == Ok(Parsed(Multiplicative(ts[k], Multiplicative(ts[j], a, b), c), m))
    ensures ExpressionAt(ts, i) == TermAt(ts, i)
  {
    FactorStops(ts, i, a, j);
    FactorStops(ts, j + 1, b, k);
    FactorStops(ts, k + 1, c, m);
    var ab := Multiplicative(ts[j], a, b);
    var abc := Multiplicative(ts[k], ab, c);
    assert TermRest(ts, abc, m) == Ok(Parsed(abc, m));
    assert TermRest(ts, ab, k) == TermRest(ts, abc, m);
    assert TermRest(ts, a, j) == TermRest(ts, ab, k);
    ExpressionStops(ts, i, abc, m);
  }

  /** `a ^ b ^ c` is `a ^ (b ^ c)`. */
  lemma PowersGroupRight(ts: seq<Token>, i: nat, a: Expr, j: nat, b: Expr, k: nat, c: Expr, m: nat)
    requires ThreePrimaries(ts, i, a, j, b, k, c, m)
    requires IsOp(ts[j], '^') && IsOp(ts[k], '^')
    ensures FactorAt(ts, i) == Ok(Parsed(Pow(a, Pow(b, c)), m))
    ensures ExpressionAt(ts, i) == FactorAt(ts, i)
  {
    FactorStops(ts, k + 1, c, m);
    assert FactorRest(ts, Pow(b, c), m) == Ok(Parsed(Pow(b, c), m));
    assert FactorRest(ts, b, k) == FactorRest(ts, Pow(b, c), m);
    assert FactorAt(ts, j + 1) == Ok(Parsed(Pow(b, c), m));
    var abc := Pow(a, Pow(b, c));
    assert FactorRest(ts, abc, m) == Ok(Parsed(abc, m));
    assert FactorRest(ts, a, j) == FactorRest(ts, abc, m);
    TermStops(ts, i, abc, m);
    ExpressionStops(ts, i, abc, m);
  }

  /** `a + b * c` is `a + (b * c)`: the product is the right operand of the sum. */
  lemma ProductBindsTighterAfter(ts: seq<Token>, i: nat, a: Expr, j: nat, b: Expr, k: nat, c: Expr, m: nat)
    requires ThreePrimaries(ts, i, a, j, b, k, c, m)
    requires IsAddOp(ts[j]) && IsMulOp(ts[k])
    ensures ExpressionAt(ts, i) == Ok(Parsed(Additive(ts[j], a, Multiplicative(ts[k], b, c)), m))
  {
    PrimaryIsTerm(ts, i, a, j);
    FactorStops(ts, j + 1, b, k);
    FactorStops(ts, k + 1, c, m);
    var bc := Multiplicative(ts[k], b, c);
    assert TermRest(ts, bc, m) == Ok(Parsed(bc, m));
    assert TermRest(ts, b, k) == TermRest(ts, bc, m);
    assert TermAt(ts, j + 1) == Ok(Parsed(bc, m));
    var abc := Additive(ts[j], a, bc);
    assert ExpressionRest(ts, abc, m) == Ok(Parsed(abc, m));
    assert ExpressionRest(ts, a, j) == ExpressionRest(ts, abc, m);
  }

  /** `a * b + c` is `(a * b) + c`: the product is the left operand of the sum. */
  lemma ProductBindsTighterBefore(ts: seq<Token>, i: nat, a: Expr, j: nat, b: Expr, k: nat, c: Expr, m: nat)
    requires ThreePrimaries(ts, i, a, j, b, k, c, m)
    requires IsMulOp(ts[j]) && IsAddOp(ts[k])
    ensures ExpressionAt(ts, i) == Ok(Parsed(Additive(ts[k], Multiplicative(ts[j], a, b), c), m))
  {
    FactorStops(ts, i, a, j);
    PrimaryIsTerm(ts, j + 1, b, k);
    PrimaryIsTerm(ts, k + 1, c, m);
    var ab := Multiplicative(ts[j], a, b);
    assert TermRest(ts, ab, k) == Ok(Parsed(ab, k));
    assert TermRest(ts, a, j) == TermRest(ts, ab, k);
    assert TermAt(ts, i) == Ok(Parsed(ab, k));
    var abc := Additive(ts[k], ab, c);
    assert ExpressionRest(ts, abc, m) == Ok(Parsed(abc, m));
    assert ExpressionRest(ts, ab, k) == ExpressionRest(ts, abc, m);
  }

  /** `a * b ^ c` is `a * (b ^ c)`: the power is the right operand of the product. */
  lemma PowerBindsTighterAfter(ts: seq<Token>, i: nat, a: Expr, j: nat, b: Expr, k: nat, c: Expr, m: nat)
    requires ThreePrimaries(ts, i, a, j, b, k, c, m)
    requires IsMulOp(ts[j]) && IsOp(ts[k], '^')
    ensures TermAt(ts, i) == Ok(Parsed(Multiplicative(ts[j], a, Pow(b, c)), m))
    ensures ExpressionAt(ts, i) == TermAt(ts, i)
  {
    FactorStops(ts, i, a, j);
    FactorStops(ts, k + 1, c, m);
    assert FactorRest(ts, Pow(b, c), m) == Ok(Parsed(Pow(b, c), m));
    assert FactorRest(ts, b, k) == FactorRest(ts, Pow(b, c), m);
    assert FactorAt(ts, j + 1) == Ok(Parsed(Pow(b, c), m));
    var abc := Multiplicative(ts[j], a, Pow(b, c));
    assert TermRest(ts, abc, m) == Ok(Parsed(abc, m));
    assert TermRest(ts, a, j) == TermRest(ts, abc, m);
    ExpressionStops(ts, i, abc, m);
  }

  /** `a ^ b * c` is `(a ^ b) * c`: the power is the left operand of the product. */
  lemma PowerBindsTighterBefore(ts: seq<Token>, i: nat, a: Expr, j: nat, b: Expr, k: nat, c: Expr, m: nat)
    requires ThreePrimaries(ts, i, a, j, b, k, c, m)
    requires IsOp(ts[j], '^') && IsMulOp(ts[k])
    ensures TermAt(ts, i) == Ok(Parsed(Multiplicative(ts[k], Pow(a, b), c), m))
    ensures ExpressionAt(ts, i) == TermAt(ts, i)
  {
    FactorStops(ts, j + 1, b, k);
    FactorStops(ts, k + 1, c, m);
    assert FactorRest(ts, Pow(a, b), k) == Ok(Parsed(Pow(a, b), k));
    assert FactorRest(ts, a, j) == FactorRest(ts, Pow(a, b), k);
    assert FactorAt(ts, i) == Ok(Parsed(Pow(a, b), k));
    var abc := Multiplicative(ts[k], Pow(a, b), c);
    assert TermRest(ts, abc, m) == Ok(Parsed(abc, m));
    assert TermRest(ts, Pow(a, b), k) == TermRest(ts, abc, m);
    ExpressionStops(ts, i, abc, m);
  }
}
