/**
 * The recursive-descent half of parser.py: `Parser` and `parse_expression`.
 *
 *   expression := term (('+' | '-') term)*      left-associative loop
 *   term       := factor (('*' | '/') factor)*  left-associative loop
 *   factor     := primary ('^' factor)*         the exponent recurses into factor
 *   primary    := NUMBER | IDENTIFIER | '(' expression ')'
 *
 * `ExpressionAt`, `TermAt`, `FactorAt` and `PrimaryAt` specify each level as
 * a function of the token list and the cursor, returning the tree and the
 * cursor after it; the `...Rest` functions are the operator loops. The
 * `Parser` class is the imperative parser with its mutable cursor, proved to
 * compute them.
 */
module MinisymParser {
  import opened Wrappers
  import opened Numeric
  import opened MinisymAst
  import opened Lexer

  /** A parsed tree and the index of the first token after it. */
  datatype Parsed = Parsed(expr: Expr, next: nat)

  predicate IsAddOp(t: Token)
  {
    IsOp(t, '+') || IsOp(t, '-')
  }

  predicate IsMulOp(t: Token)
  {
    IsOp(t, '*') || IsOp(t, '/')
  }

  /**
   * `left - right` as parser.py builds it. A right operand that parsed to a
   * Number is negated into a local variable that is never used, so `left`
   * comes back unchanged; any other right operand gives `left + (-1 * right)`.
   */
  function Subtract(left: Expr, right: Expr): Expr
  {
    if right.Number? then left else Add(left, Mul(Number(Int(-1)), right))
  }

  /**
   * `left / right` as parser.py builds it: a nonzero Number divisor becomes
   * its float reciprocal, anything else (a zero Number included) the power -1.
   */
  function Divide(left: Expr, right: Expr): Expr
  {
    if right.Number? && !IsZero(right.value) then Mul(left, Number(Reciprocal(right.value)))
    else Mul(left, Pow(right, Number(Int(-1))))
  }

  /** The tree the `+`/`-` loop builds from `left`, the operator token `op` and `right`. */
  function Additive(op: Token, left: Expr, right: Expr): Expr
  {
    if IsOp(op, '+') then Add(left, right) else Subtract(left, right)
  }

  /** The tree the `*`/`/` loop builds from `left`, the operator token `op` and `right`. */
  function Multiplicative(op: Token, left: Expr, right: Expr): Expr
  {
    if IsOp(op, '*') then Mul(left, right) else Divide(left, right)
  }

  // ----- Specification of each grammar level -----

  /**
   * The errors a grammar level can raise: running out of tokens, a token
   * that cannot start a primary, or a missing `)`.
   */
  predicate GrammarError(e: Error)
  {
    e.UnexpectedEndOfInput? || e.UnexpectedToken? || e.UnmatchedParentheses?
  }

  function ExpressionAt(ts: seq<Token>, i: nat): (r: Result<Parsed, Error>)
    requires i <= |ts|
    ensures r.Ok? ==> i < r.value.next <= |ts|
    ensures r.Err? ==> GrammarError(r.error)
    decreases |ts| - i, 3
  {
    match TermAt(ts, i)
    case Err(e) => Err(e)
    case Ok(first) => ExpressionRest(ts, first.expr, first.next)
  }

  /** The `+`/`-` loop of `parse_expression`, with `left` built so far and the cursor at `i`. */
  function ExpressionRest(ts: seq<Token>, left: Expr, i: nat): (r: Result<Parsed, Error>)
    requires i <= |ts|
    ensures r.Ok? ==> i <= r.value.next <= |ts|
    ensures r.Ok? ==> r.value.next == |ts| || !IsAddOp(ts[r.value.next])
    ensures r.Err? ==> GrammarError(r.error)
    decreases |ts| - i, 4
  {
    if i < |ts| && IsAddOp(ts[i]) then
      match TermAt(ts, i + 1)
      case Err(e) => Err(e)
      case Ok(right) =>
        ExpressionRest(ts, Additive(ts[i], left, right.expr), right.next)
    else Ok(Parsed(left, i))
  }

  function TermAt(ts: seq<Token>, i: nat): (r: Result<Parsed, Error>)
    requires i <= |ts|
    ensures r.Ok? ==> i < r.value.next <= |ts|
    ensures r.Err? ==> GrammarError(r.error)
    decreases |ts| - i, 2
  {
    match FactorAt(ts, i)
    case Err(e) => Err(e)
    case Ok(first) => TermRest(ts, first.expr, first.next)
  }

  /** The `*`/`/` loop of `parse_term`. */
  function TermRest(ts: seq<Token>, left: Expr, i: nat): (r: Result<Parsed, Error>)
    requires i <= |ts|
    ensures r.Ok? ==> i <= r.value.next <= |ts|
    ensures r.Ok? ==> r.value.next == |ts| || !IsMulOp(ts[r.value.next])
    ensures r.Err? ==> GrammarError(r.error)
    decreases |ts| - i, 4
  {
    if i < |ts| && IsMulOp(ts[i]) then
      match FactorAt(ts, i + 1)
      case Err(e) => Err(e)
      case Ok(right) =>
        TermRest(ts, Multiplicative(ts[i], left, right.expr), right.next)
    else Ok(Parsed(left, i))
  }

  function FactorAt(ts: seq<Token>, i: nat): (r: Result<Parsed, Error>)
    requires i <= |ts|
    ensures r.Ok? ==> i < r.value.next <= |ts|
    ensures r.Ok? ==> r.value.next == |ts| || !IsOp(ts[r.value.next], '^')
    ensures r.Err? ==> GrammarError(r.error)
    decreases |ts| - i, 1
  {
    match PrimaryAt(ts, i)
    case Err(e) => Err(e)
    case Ok(first) => FactorRest(ts, first.expr, first.next)
  }

  /** The `^` loop of `parse_factor`; its exponent is a whole factor. */
  function FactorRest(ts: seq<Token>, left: Expr, i: nat): (r: Result<Parsed, Error>)
    requires i <= |ts|
    ensures r.Ok? ==> i <= r.value.next <= |ts|
    ensures r.Ok? ==> r.value.next == |ts| || !IsOp(ts[r.value.next], '^')
    ensures r.Err? ==> GrammarError(r.error)
    decreases |ts| - i, 4
  {
    if i < |ts| && IsOp(ts[i], '^') then
      match FactorAt(ts, i + 1)
      case Err(e) => Err(e)
      case Ok(right) => FactorRest(ts, Pow(left, right.expr), right.next)
    else Ok(Parsed(left, i))
  }

  function PrimaryAt(ts: seq<Token>, i: nat): (r: Result<Parsed, Error>)
    requires i <= |ts|
    ensures r.Ok? ==> i < r.value.next <= |ts|
    ensures r.Err? ==> GrammarError(r.error)
    decreases |ts| - i, 0
  {
    if i == |ts| then Err(UnexpectedEndOfInput)
    else match ts[i]
      case NumberToken(v, _) => Ok(Parsed(Number(v), i + 1))
      case IdentifierToken(n, _) => Ok(Parsed(Symbol(n), i + 1))
      case OperatorToken(c, _) =>
        if c == '(' then
          match ExpressionAt(ts, i + 1)
          case Err(e) => Err(e)
          case Ok(inner) =>
            if inner.next == |ts| || !IsOp(ts[inner.next], ')') then Err(UnmatchedParentheses)
            else Ok(Parsed(inner.expr, inner.next + 1))
        else Err(UnexpectedToken(ts[i]))
  }

  /** `Parser.parse`: reject an empty token list, parse one expression, reject leftovers. */
  function ParseTokens(ts: seq<Token>): (r: Result<Expr, Error>)
    ensures r == Err(EmptyExpression) <==> ts == []
    ensures r.Err? && r.error.TrailingTokens? ==> 0 < r.error.index < |ts|
    ensures r.Err? && r.error != EmptyExpression && !r.error.TrailingTokens? ==> GrammarError(r.error)
    // success means one expression spans every token
    ensures r.Ok? ==> ExpressionAt(ts, 0) == Ok(Parsed(r.value, |ts|))
    // an expression that stops short is reported at the first token it leaves over
    ensures ts != [] && ExpressionAt(ts, 0).Ok? && ExpressionAt(ts, 0).value.next < |ts| ==>
              r == Err(TrailingTokens(ExpressionAt(ts, 0).value.next))
  {
    if ts == [] then Err(EmptyExpression)
    else match ExpressionAt(ts, 0)
      case Err(e) => Err(e)
      case Ok(p) => if p.next < |ts| then Err(TrailingTokens(p.next)) else Ok(p.expr)
  }

  /** `parse_expression(text)`: tokenize the whole text, then parse the tokens. */
  function ParseText(text: string): (r: Result<Expr, Error>)
    ensures r == Err(EmptyExpression) <==> Lex(text) == Ok([])
  {
    match Lex(text)
    case Err(e) => Err(e)
    case Ok(ts) => ParseTokens(ts)
  }

  // ----- The imperative parser -----

  class Parser {
    const tokens: seq<Token>
    var position: nat

    /** Python's constructor also tokenizes; here it receives the tokens. */
    constructor(tokens: seq<Token>)
      ensures this.tokens == tokens && position == 0
    {
      this.tokens := tokens;
      position := 0;
    }

    /** The method's outcome `r` and its final cursor are those of the specification `spec`. */
    ghost predicate Agrees(r: Result<Expr, Error>, spec: Result<Parsed, Error>)
      reads this
    {
      match spec
      case Ok(p) => r == Ok(p.expr) && position == p.next
      case Err(e) => r == Err(e)
    }

    method Parse() returns (r: Result<Expr, Error>)
      requires position == 0
      modifies this
      ensures r == ParseTokens(tokens)
    {
      if |tokens| == 0 {
        return Err(EmptyExpression);
      }
      r := ParseExpression();
      if r.Err? {
        return;
      }
      if position < |tokens| {
        return Err(TrailingTokens(position));
      }
    }

    method ParseExpression() returns (r: Result<Expr, Error>)
      requires position <= |tokens|
      modifies this
      ensures Agrees(r, ExpressionAt(tokens, old(position)))
      decreases |tokens| - position, 3
    {
      var first := ParseTerm();
      if first.Err? {
        return first;
      }
      var left := first.value;
      while position < |tokens| && IsAddOp(tokens[position])
        invariant old(position) < position <= |tokens|
        invariant ExpressionAt(tokens, old(position)) == ExpressionRest(tokens, left, position)
        decreases |tokens| - position
      {
        var op := tokens[position].op;
        Advance();
        var right := ParseTerm();
        if right.Err? {
          return right;
        }
        if op == '+' {
          left := Add(left, right.value);
        } else {
          left := Subtract(left, right.value);
        }
      }
      r := Ok(left);
    }

    method ParseTerm() returns (r: Result<Expr, Error>)
      requires position <= |tokens|
      modifies this
      ensures Agrees(r, TermAt(tokens, old(position)))
      decreases |tokens| - position, 2
    {
      var first := ParseFactor();
      if first.Err? {
        return first;
      }
      var left := first.value;
      while position < |tokens| && IsMulOp(tokens[position])
        invariant old(position) < position <= |tokens|
        invariant TermAt(tokens, old(position)) == TermRest(tokens, left, position)
        decreases |tokens| - position
      {
        var op := tokens[position].op;
        Advance();
        var right := ParseFactor();
        if right.Err? {
          return right;
        }
        if op == '*' {
          left := Mul(left, right.value);
        } else {
          left := Divide(left, right.value);
        }
      }
      r := Ok(left);
    }

    method ParseFactor() returns (r: Result<Expr, Error>)
      requires position <= |tokens|
      modifies this
      ensures Agrees(r, FactorAt(tokens, old(position)))
      decreases |tokens| - position, 1
    {
      var first := ParsePrimary();
      if first.Err? {
        return first;
      }
      var left := first.value;
      while position < |tokens| && IsOp(tokens[position], '^')
        invariant old(position) < position <= |tokens|
        invariant FactorAt(tokens, old(position)) == FactorRest(tokens, left, position)
        decreases |tokens| - position
      {
        Advance();
        var right := ParseFactor();
        if right.Err? {
          return right;
        }
        left := Pow(left, right.value);
      }
      r := Ok(left);
    }

    method ParsePrimary() returns (r: Result<Expr, Error>)
      requires position <= |tokens|
      modifies this
      ensures Agrees(r, PrimaryAt(tokens, old(position)))
      decreases |tokens| - position, 0
    {
      var current := CurrentToken();
      if current.Err? {
        return Err(current.error);
      }
      var token := current.value;
      match token
      case NumberToken(v, _) =>
        Advance();
        return Ok(Number(v));
      case IdentifierToken(n, _) =>
        Advance();
        return Ok(Symbol(n));
      case OperatorToken(c, _) =>
        if c == '(' {
          Advance();
          var inner := ParseExpression();
          if inner.Err? {
            return inner;
          }
          if position >= |tokens| || !IsOp(tokens[position], ')') {
            return Err(UnmatchedParentheses);
          }
          Advance();
          return inner;
        }
        return Err(UnexpectedToken(token));
    }

    /** `current_token`: the token under the cursor, or "Unexpected end of input". */
    method CurrentToken() returns (r: Result<Token, Error>)
      ensures position < |tokens| ==> r == Ok(tokens[position])
      ensures position >= |tokens| ==> r == Err(UnexpectedEndOfInput)
    {
      if position >= |tokens| {
        return Err(UnexpectedEndOfInput);
      }
      return Ok(tokens[position]);
    }

    method Advance()
      modifies this
      ensures position == old(position) + 1
    {
      position := position + 1;
    }
  }

  /** `parse_expression(text)`: the tree of the whole text, or the error raised. */
  method ParseExpression(text: string) returns (r: Result<Expr, Error>)
    ensures r == ParseText(text)
  {
    var tokenizer := new Tokenizer(text);
    var failure := tokenizer.Tokenize();
    if failure.Some? {
      return Err(failure.value);
    }
    var parser := new Parser(tokenizer.tokens);
    r := parser.Parse();
  }
}
