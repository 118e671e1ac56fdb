/**
 * The algebraic meaning of a tree, as a reference for the simplifier and the
 * parser's desugaring. A tree evaluates over the reals under an assignment of
 * values to symbols; a power is defined when its exponent is an integer and
 * it does not raise zero to a negative power. Float values are exact reals
 * here, so this meaning ignores floating-point rounding.
 */
module Semantics {
  import opened Wrappers
  import opened Numeric
  import opened MinisymAst
  import opened Simplifier
  import opened MinisymParser

  /** Whether `x ** v` is defined, and its value when it is. */
  function PowValue(x: real, v: real): Option<real>
  {
    if IsIntegral(v) && (v.Floor >= 0 || x != 0.0) then Some(RealPow(x, v.Floor)) else None
  }

  function Eval(e: Expr, env: string -> real): Option<real>
  {
    match e
    case Number(n) => Some(Value(n))
    case Symbol(name) => Some(env(name))
    case Add(l, r) =>
      var a, b := Eval(l, env), Eval(r, env);
      if a.Some? && b.Some? then Some(a.value + b.value) else None
    case Mul(l, r) =>
      var a, b := Eval(l, env), Eval(r, env);
      if a.Some? && b.Some? then Some(a.value * b.value) else None
    case Pow(l, r) =>
      var a, b := Eval(l, env), Eval(r, env);
      if a.Some? && b.Some? then PowValue(a.value, b.value) else None
  }

  lemma {:induction false} RealNatPowOne(k: nat)
    ensures RealNatPow(1.0, k) == 1.0
  {
    if k > 0 { RealNatPowOne(k - 1); }
  }

  lemma RealNatPowZero(k: nat)
    requires k > 0
    ensures RealNatPow(0.0, k) == 0.0
  {
  }

  lemma EvalMul(x: Expr, y: Expr, env: string -> real, a: real, b: real)
    requires Eval(x, env) == Some(a) && Eval(y, env) == Some(b)
    ensures Eval(Mul(x, y), env) == Some(a * b)
  {
    var e := Mul(x, y);
    assert Eval(e, env).value == Eval(x, env).value * Eval(y, env).value;
    assert Eval(x, env).value == a && Eval(y, env).value == b;
    assert Eval(e, env).value == a * b;
  }

  /** Scaling a term by a coefficient, as the merging rules rebuild it. */
  lemma ScaledValue(c: Num, t: Expr, env: string -> real, v: real)
    requires Eval(t, env) == Some(v)
    ensures IsZero(c) ==> Value(c) * v == 0.0
    ensures IsOne(c) ==> Value(c) * v == v
    ensures Eval(Mul(Number(c), t), env) == Some(Value(c) * v)
  {
    EvalMul(Number(c), t, env, Value(c), v);
  }

  /** `a*R + b*R` has the value of `(a+b)*R`, whichever form the merge returns. */
  lemma LikeTermsPreserves(l: Expr, r: Expr, env: string -> real, a: real, b: real)
    requires IsScaled(l) && IsScaled(r) && l.right == r.right
    requires !IsZeroNumber(l) && !IsZeroNumber(r)
    requires Eval(l, env) == Some(a) && Eval(r, env) == Some(b)
    ensures Eval(AddRule(l, r), env) == Some(a + b)
  {
    var p, q := Value(l.left.value), Value(r.left.value);
    var t := Eval(l.right, env).value;
    assert a == p * t && b == q * t;
    var c := Plus(l.left.value, r.left.value);
    assert a + b == Value(c) * t;
    ScaledValue(c, l.right, env, t);
  }

  lemma AddRulePreserves(l: Expr, r: Expr, env: string -> real, a: real, b: real)
    requires Eval(l, env) == Some(a) && Eval(r, env) == Some(b)
    ensures Eval(AddRule(l, r), env) == Some(a + b)
  {
    if IsZeroNumber(r) || IsZeroNumber(l) || (l.Number? && r.Number?) {
    } else if IsScaled(l) && IsScaled(r) && l.right == r.right {
      LikeTermsPreserves(l, r, env, a, b);
    } else if l == r {
      assert AddRule(l, r) == Mul(Number(Int(2)), l);
      EvalMul(Number(Int(2)), l, env, 2.0, a);
      assert a + b == 2.0 * a;
    } else if IsScaled(r) && IsOne(r.left.value) && r.right == l {
      assert b == a;
      EvalMul(Number(Int(2)), l, env, 2.0, a);
    } else if IsScaled(l) && IsOne(l.left.value) && l.right == r {
      assert a == b;
      EvalMul(Number(Int(2)), r, env, 2.0, b);
    }
  }

  /** `a * (b*Y)` has the value of `(a*b) * Y`, whichever form the fold returns. */
  lemma CoefficientFoldPreserves(l: Expr, r: Expr, env: string -> real, a: real, b: real)
    requires l.Number? && IsScaled(r)
    requires !IsOneNumber(l) && !IsOneNumber(r) && !IsZeroNumber(l) && !IsZeroNumber(r)
    requires Eval(l, env) == Some(a) && Eval(r, env) == Some(b)
    ensures Eval(MulRule(l, r), env) == Some(a * b)
  {
    var p, q := Value(l.value), Value(r.left.value);
    var t := Eval(r.right, env).value;
    assert b == q * t;
    var c := Times(l.value, r.left.value);
    assert a * b == Value(c) * t;
    ScaledValue(c, r.right, env, t);
  }

  lemma MulRulePreserves(l: Expr, r: Expr, env: string -> real, a: real, b: real)
    requires Eval(l, env) == Some(a) && Eval(r, env) == Some(b)
    ensures Eval(MulRule(l, r), env) == Some(a * b)
  {
    if IsOneNumber(r) || IsOneNumber(l) || IsZeroNumber(r) || IsZeroNumber(l) {
    } else if l.Number? && r.Number? {
      assert Value(Times(l.value, r.value)) == a * b;
      assert Eval(MulRule(l, r), env) == Some(Value(Times(l.value, r.value)));
    } else if l.Number? && IsScaled(r) {
      CoefficientFoldPreserves(l, r, env, a, b);
    } else {
      EvalMul(l, r, env, a, b);
    }
  }

  lemma PowRulePreserves(base: Expr, exp: Expr, env: string -> real, v: real)
    requires Eval(Pow(base, exp), env) == Some(v)
    ensures PowRule(base, exp).Ok?
    ensures Eval(PowRule(base, exp).value, env) == Some(v)
  {
    var a, k := Eval(base, env).value, Eval(exp, env).value;
    if IsOneNumber(exp) {
      assert k.Floor == 1 && RealNatPow(a, 1) == a;
    } else if IsZeroNumber(exp) {
    } else if IsOneNumber(base) {
      RealNatPowOne(if k.Floor >= 0 then k.Floor else -k.Floor);
    } else if IsZeroNumber(base) && exp.Number? && Value(exp.value) > 0.0 {
      RealNatPowZero(k.Floor);
    }
  }

  /**
   * Wherever the original tree has a value, `Simplify` succeeds and the
   * simplified tree has the same value.
   */
  lemma {:induction false} SimplifyPreservesValue(e: Expr, env: string -> real)
    requires Eval(e, env).Some?
    ensures Simplify(e).Ok?
    ensures Eval(Simplify(e).value, env) == Eval(e, env)
  {
    match e
    case Number(_) =>
    case Symbol(_) =>
    case Add(l, r) =>
      SimplifyPreservesValue(l, env); SimplifyPreservesValue(r, env);
      AddRulePreserves(Simplify(l).value, Simplify(r).value, env, Eval(l, env).value, Eval(r, env).value);
    case Mul(l, r) =>
      SimplifyPreservesValue(l, env); SimplifyPreservesValue(r, env);
      var a, b := Eval(l, env).value, Eval(r, env).value;
      var sl, sr := Simplify(l).value, Simplify(r).value;
      MulRulePreserves(sl, sr, env, a, b);
      EvalMul(l, r, env, a, b);
      assert Simplify(e) == Ok(MulRule(sl, sr));
    case Pow(b, x) =>
      SimplifyPreservesValue(b, env); SimplifyPreservesValue(x, env);
      PowRulePreserves(Simplify(b).value, Simplify(x).value, env, Eval(e, env).value);
  }

  /**
   * Division desugars to a product that has the quotient's value when the
   * divisor is nonzero and no value when it is zero.
   */
  lemma DivideMeaning(l: Expr, r: Expr, env: string -> real, a: real, b: real)
    requires Eval(l, env) == Some(a) && Eval(r, env) == Some(b)
    ensures b != 0.0 ==> Eval(Divide(l, r), env) == Some(a / b)
    ensures b == 0.0 ==> Eval(Divide(l, r), env) == None
  {
    assert RealNatPow(b, 1) == b;
    if r.Number? && b != 0.0 {
      var q := Value(Reciprocal(r.value));
      assert q * b == 1.0;
      assert q == 1.0 / b;
      var d := Mul(l, Number(Reciprocal(r.value)));
      assert Divide(l, r) == d;
      EvalMul(l, Number(Reciprocal(r.value)), env, a, q);
      assert Eval(d, env).value == a * q;
      assert a * q == a / b;
    } else if b != 0.0 {
      var q := 1.0 / b;
      assert PowValue(b, -1.0) == Some(q);
      var d := Mul(l, Pow(r, Number(Int(-1))));
      assert Divide(l, r) == d;
      EvalMul(l, Pow(r, Number(Int(-1))), env, a, q);
      assert Eval(d, env).value == a * q;
      assert a * q == a / b;
    }
  }

  /**
   * Subtraction desugars to `l + (-1 * r)`, which has the difference's value,
   * except that a Number operand is dropped and `l` comes back unchanged.
   */
  lemma SubtractMeaning(l: Expr, r: Expr, env: string -> real, a: real, b: real)
    requires Eval(l, env) == Some(a) && Eval(r, env) == Some(b)
    ensures !r.Number? ==> Eval(Subtract(l, r), env) == Some(a - b)
    ensures r.Number? ==> Subtract(l, r) == l
  {
    if !r.Number? {
      EvalMul(Number(Int(-1)), r, env, -1.0, b);
    }
  }
}
