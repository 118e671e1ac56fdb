/**
 * Concrete inputs from the repository's own tests and demos (test_phase2.py,
 * test_phase3.py), with the results the model gives for them.
 */
module Examples {
  import opened Wrappers
  import opened Numeric
  import opened MinisymAst
  import opened Lexer
  import opened LexerProperties
  import opened MinisymParser
  import opened ParserLaws
  import opened Simplifier
  import opened PlainTrees
  import opened RoundTrip

  const X := Symbol("x")
  const Y := Symbol("y")

  function N(i: int): Expr
  {
    Number(Int(i))
  }

  // ----- Tokenizing -----

  lemma TokenizeSum()
    ensures Lex("x + 2") == Ok([IdentifierToken("x", 0), OperatorToken('+', 2), NumberToken(Int(2), 4)])
  {
    var t := "x + 2";
    var a := [IdentifierToken("x", 0)];
    var b := a + [OperatorToken('+', 2)];
    var c := b + [NumberToken(Int(2), 4)];
    LexName(t, 0, "x", []);
    assert [] + a == a;
    assert LexFrom(t, 0, []) == LexFrom(t, 1, a);
    LexSpace(t, 1, 2, a);
    LexOperator(t, 2, 3, '+', a);
    assert LexFrom(t, 0, []) == LexFrom(t, 3, b);
    LexSpace(t, 3, 4, b);
    LexNatural(t, 4, 2, b);
    assert LexFrom(t, 0, []) == LexFrom(t, 5, c);
    assert LexFrom(t, 5, c) == Ok(c);
    assert c == [IdentifierToken("x", 0), OperatorToken('+', 2), NumberToken(Int(2), 4)];
  }

  lemma TokenizeFloat()
    ensures Lex("3.14") == Ok([NumberToken(Float(3.14), 0)])
  {
    var t := "3.14";
    NumberEndAt(t, 0, 4);
    assert t[0..4] == t;
    assert IndexOf(t, '.') == 1;
    assert t[..1] == "3" && t[2..] == "14";
    assert DigitsValue("3") == 3;
    assert "14"[..1] == "1";
    assert DigitsValue("14") == 14;
    assert Numeral(t) == Some(Float(3.14));
    assert t[0] == '3' && !IsSpace(t[0]) && IsNumeralChar(t[0]);
    assert [] + [NumberToken(Float(3.14), 0)] == [NumberToken(Float(3.14), 0)];
    assert LexToken(t, 0, []) == LexFrom(t, 4, [NumberToken(Float(3.14), 0)]);
  }

  lemma TokenizeUnknown()
    ensures Lex("x @ 2") == Err(UnknownCharacter('@', 2))
  {
  }

  /** The scan stops at a numeral with two dots, reporting the whole run and where it starts. */
  lemma TokenizeBadNumeral()
    ensures Lex("x + 2.3.4") == Err(InvalidNumber("2.3.4", 4))
  {
    var t := "x + 2.3.4";
    var a := [IdentifierToken("x", 0)];
    var b := a + [OperatorToken('+', 2)];
    LexName(t, 0, "x", []);
    assert [] + a == a;
    assert LexFrom(t, 0, []) == LexFrom(t, 1, a);
    LexSpace(t, 1, 2, a);
    LexOperator(t, 2, 3, '+', a);
    LexSpace(t, 3, 4, b);
    assert LexFrom(t, 0, []) == LexFrom(t, 4, b);
    NumeralFailsAt(t, b);
  }

  lemma NumeralFailsAt(t: string, acc: seq<Token>)
    requires t == "x + 2.3.4"
    ensures LexFrom(t, 4, acc) == Err(InvalidNumber("2.3.4", 4))
  {
    NumberEndAt(t, 4, 9);
    assert t[4..9] == "2.3.4";
    TwoDotsRejected();
  }

  /** The error names the first failing numeral, not a later run inside it. */
  lemma NumeralBlamedWhole()
    ensures !ErrorCause("1.2.3", InvalidNumber(".2.3", 1))
  {
    var t := "1.2.3";
    var e := InvalidNumber(".2.3", 1);
    assert t[0] == '1' && !IsSpace(t[0]);
    NumberEndAt(t, 0, 5);
    assert t[0..5] == "1.2.3";
    TwoDotsInside();
    assert !ScansUpTo(t, 1) by {
      if ScansUpTo(t, 1) {
        var ts: seq<Token> :| Tiled(t, ts, 1);
        TiledStart(t, ts, 1);
        NumeralTokenAt(t, ts[0]);
        assert false;
      }
    }
  }

  lemma TwoDotsInside()
    ensures Numeral("1.2.3") == None
  {
    var s := "1.2.3";
    assert IndexOf(s, '.') == 1;
    assert s[2..][1] == '.';
  }

  /** The error names the first failure: a rejected character earlier wins over a later numeral. */
  lemma UnknownBlamedFirst()
    ensures !ErrorCause("x @ 2.3.4", InvalidNumber("2.3.4", 4))
  {
    var t := "x @ 2.3.4";
    var e := InvalidNumber("2.3.4", 4);
    assert t[2] == '@';
    assert IsUnknown(t[2]);
    if ErrorCause(t, e) {
      ErrorCauseIsFirst(t, e);
      assert false;
    }
  }

  lemma TwoDotsRejected()
    ensures Numeral("2.3.4") == None
  {
    var s := "2.3.4";
    assert IndexOf(s, '.') == 1;
    assert s[2..][1] == '.';
  }

  // ----- Parsing -----

  lemma ParseSum()
    ensures ParseText("x + 2") == Ok(Add(X, N(2)))
  {
    TokenizeSum();
  }

  /** An operator with nothing after it runs out of tokens looking for its right operand. */
  lemma ParseDanglingOperator()
    ensures ParseText("x +") == Err(UnexpectedEndOfInput)
  {
    var t := "x +";
    var a := [IdentifierToken("x", 0)];
    var b := a + [OperatorToken('+', 2)];
    LexName(t, 0, "x", []);
    assert [] + a == a;
    assert LexFrom(t, 0, []) == LexFrom(t, 1, a);
    LexSpace(t, 1, 2, a);
    LexOperator(t, 2, 3, '+', a);
    assert Lex(t) == Ok(b);
    assert b == [IdentifierToken("x", 0), OperatorToken('+', 2)];
    assert FactorAt(b, 0) == Ok(Parsed(X, 1));
    assert TermAt(b, 0) == Ok(Parsed(X, 1));
    assert PrimaryAt(b, 2) == Err(UnexpectedEndOfInput);
    assert FactorAt(b, 2) == Err(UnexpectedEndOfInput);
    assert TermAt(b, 2) == Err(UnexpectedEndOfInput);
  }

  lemma ParseEmpty()
    ensures ParseText("") == Err(EmptyExpression)
  {
  }

  lemma ParsePrecedence()
    ensures ParseTokens([NumberToken(Int(2), 0), OperatorToken('+', 2), NumberToken(Int(3), 4),
                         OperatorToken('*', 6), IdentifierToken("x", 8)])
            == Ok(Add(N(2), Mul(N(3), X)))
  {
  }

  lemma ParseParenthesesFirst()
    ensures ParseTokens([OperatorToken('(', 0), NumberToken(Int(2), 1), OperatorToken('+', 3),
                         NumberToken(Int(3), 5), OperatorToken(')', 6), OperatorToken('*', 8),
                         IdentifierToken("x", 10)])
            == Ok(Mul(Add(N(2), N(3)), X))
  {
    var ts := [OperatorToken('(', 0), NumberToken(Int(2), 1), OperatorToken('+', 3),
               NumberToken(Int(3), 5), OperatorToken(')', 6), OperatorToken('*', 8),
               IdentifierToken("x", 10)];
    assert TermAt(ts, 1) == Ok(Parsed(N(2), 2));
    assert TermAt(ts, 3) == Ok(Parsed(N(3), 4));
    assert ExpressionAt(ts, 1) == Ok(Parsed(Add(N(2), N(3)), 4));
    assert PrimaryAt(ts, 0) == Ok(Parsed(Add(N(2), N(3)), 5));
    assert FactorAt(ts, 0) == Ok(Parsed(Add(N(2), N(3)), 5));
    assert FactorAt(ts, 6) == Ok(Parsed(X, 7));
  }

  lemma ParseSumsLeftToRight()
    ensures ParseTokens([IdentifierToken("x", 0), OperatorToken('+', 2), IdentifierToken("y", 4),
                         OperatorToken('*', 6), NumberToken(Int(2), 8), OperatorToken('+', 10),
                         IdentifierToken("z", 12)])
            == Ok(Add(Add(X, Mul(Y, N(2))), Symbol("z")))
  {
    var ts := [IdentifierToken("x", 0), OperatorToken('+', 2), IdentifierToken("y", 4),
               OperatorToken('*', 6), NumberToken(Int(2), 8), OperatorToken('+', 10),
               IdentifierToken("z", 12)];
    assert FactorAt(ts, 2) == Ok(Parsed(Y, 3));
    assert FactorAt(ts, 4) == Ok(Parsed(N(2), 5));
    assert TermAt(ts, 2) == Ok(Parsed(Mul(Y, N(2)), 5));
    assert ExpressionAt(ts, 0) == ExpressionRest(ts, Add(X, Mul(Y, N(2))), 5);
  }

  lemma ParsePowersRightToLeft()
    ensures ParseTokens([IdentifierToken("x", 0), OperatorToken('^', 1), IdentifierToken("y", 2),
                         OperatorToken('^', 3), IdentifierToken("z", 4)])
            == Ok(Pow(X, Pow(Y, Symbol("z"))))
  {
  }

  /** `x - 2`: the negated literal is discarded and `x` comes back. */
  lemma ParseSubtractLiteral()
    ensures ParseTokens([IdentifierToken("x", 0), OperatorToken('-', 2), NumberToken(Int(2), 4)]) == Ok(X)
  {
  }

  lemma ParseSubtractSymbol()
    ensures ParseTokens([IdentifierToken("x", 0), OperatorToken('-', 2), IdentifierToken("y", 4)])
            == Ok(Add(X, Mul(N(-1), Y)))
  {
  }

  lemma ParseDivide()
    ensures ParseTokens([IdentifierToken("x", 0), OperatorToken('/', 2), NumberToken(Int(2), 4)])
            == Ok(Mul(X, Number(Float(0.5))))
  {
  }

  lemma ParseUnclosed()
    ensures ParseTokens([OperatorToken('(', 0), IdentifierToken("x", 1), OperatorToken('+', 3),
                         NumberToken(Int(2), 5)])
            == Err(UnmatchedParentheses)
  {
  }

  lemma ParseUnopened()
    ensures ParseTokens([IdentifierToken("x", 0), OperatorToken('+', 2), NumberToken(Int(2), 4),
                         OperatorToken(')', 5)])
            == Err(TrailingTokens(3))
  {
  }

  /** There is no unary minus: the tokens of `3*x + (-3)*x` stop at the `-`. */
  lemma ParseNoUnaryMinus()
    ensures ParseTokens([NumberToken(Int(3), 0), OperatorToken('*', 1), IdentifierToken("x", 2),
                         OperatorToken('+', 4), OperatorToken('(', 6), OperatorToken('-', 7),
                         NumberToken(Int(3), 8), OperatorToken(')', 9), OperatorToken('*', 10),
                         IdentifierToken("x", 11)])
            == Err(UnexpectedToken(OperatorToken('-', 7)))
  {
    var ts := [NumberToken(Int(3), 0), OperatorToken('*', 1), IdentifierToken("x", 2),
               OperatorToken('+', 4), OperatorToken('(', 6), OperatorToken('-', 7),
               NumberToken(Int(3), 8), OperatorToken(')', 9), OperatorToken('*', 10),
               IdentifierToken("x", 11)];
    StopsAtMinus(ts);
  }

  lemma StopsAtMinus(ts: seq<Token>)
    requires |ts| > 6
    requires ts[0] == NumberToken(Int(3), 0) && ts[1] == OperatorToken('*', 1)
    requires ts[2] == IdentifierToken("x", 2) && ts[3] == OperatorToken('+', 4)
    requires ts[4] == OperatorToken('(', 6) && ts[5] == OperatorToken('-', 7)
    ensures ParseTokens(ts) == Err(UnexpectedToken(OperatorToken('-', 7)))
  {
    assert FactorAt(ts, 0) == Ok(Parsed(N(3), 1));
    assert FactorAt(ts, 2) == Ok(Parsed(X, 3));
    assert TermRest(ts, Mul(N(3), X), 3) == Ok(Parsed(Mul(N(3), X), 3));
    assert TermAt(ts, 0) == Ok(Parsed(Mul(N(3), X), 3));
    NoUnaryOperator(ts, 5);
    assert PrimaryAt(ts, 4) == Err(UnexpectedToken(OperatorToken('-', 7)));
    PrimaryFailureSpreads(ts, 4);
    assert ExpressionRest(ts, Mul(N(3), X), 3) == Err(UnexpectedToken(OperatorToken('-', 7)));
  }

  // ----- Simplifying -----

  lemma SimplifyLikeTerms()
    ensures Simplify(Add(Mul(N(2), X), Mul(N(3), X))) == Ok(Mul(N(5), X))
  {
  }

  lemma SimplifyThreeLikeTerms()
    ensures Simplify(Add(Add(Mul(N(2), X), Mul(N(3), X)), Mul(N(4), X))) == Ok(Mul(N(9), X))
  {
    SimplifyLikeTerms();
    assert Simplify(Mul(N(4), X)) == Ok(Mul(N(4), X));
    assert AddRule(Mul(N(5), X), Mul(N(4), X)) == Mul(N(9), X);
  }

  lemma SimplifyDouble()
    ensures Simplify(Add(X, X)) == Ok(Mul(N(2), X))
  {
  }

  lemma SimplifyCancel()
    ensures Simplify(Add(Mul(N(3), X), Mul(N(-3), X))) == Ok(N(0))
  {
  }

  lemma SimplifyNested()
    ensures Simplify(Add(Mul(Add(X, N(0)), Add(Y, N(0))), Add(N(2), N(3)))) == Ok(Add(Mul(X, Y), N(5)))
  {
  }

  lemma SimplifyZeroToZero()
    ensures Simplify(Pow(N(0), N(0))) == Ok(N(1))
  {
  }

  lemma SimplifyPowerFold()
    ensures Simplify(Pow(N(2), N(3))) == Ok(N(8))
  {
  }

  /** `x / 0` parses to `x * 0 ** -1`, whose fold raises ZeroDivisionError. */
  lemma SimplifyDivisionByZero()
    ensures Simplify(Divide(X, N(0))) == Err(ZeroToNegativePower(Int(0), Int(-1)))
  {
  }

  // ----- Rendering -----

  lemma RenderEachKind(floatText: real -> string)
    ensures ToString(N(42), floatText) == "42"
    ensures ToString(X, floatText) == "x"
    ensures ToString(Add(X, N(42)), floatText) == "(x + 42)"
    ensures ToString(Mul(X, N(42)), floatText) == "(x * 42)"
    ensures ToString(Pow(X, N(42)), floatText) == "(x ** 42)"
  {
    assert NatText(42) == "42";
  }

  lemma RenderScaled(floatText: real -> string)
    ensures ToString(Mul(N(5), X), floatText) == "(5 * x)"
  {
  }
}
