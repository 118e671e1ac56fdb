/**
 * What one pass of `Simplify` achieves. Its results are exactly the trees in
 * which no rule fires anywhere (`Normal`), so a second pass changes nothing:
 * the pass is idempotent even though it never loops to a fixed point. The
 * model's `Simplify` fails only on a zero base raised to a negative exponent,
 * so trees without powers always simplify.
 */
module SimplifierProperties {
  import opened Wrappers
  import opened Numeric
  import opened MinisymAst
  import opened Simplifier

  /** A tree in which no Add, Mul or Pow rule fires at any node. */
  predicate Normal(e: Expr)
  {
    match e
    case Number(_) => true
    case Symbol(_) => true
    case Add(l, r) => Normal(l) && Normal(r) && AddRule(l, r) == e
    case Mul(l, r) => Normal(l) && Normal(r) && MulRule(l, r) == e
    case Pow(b, x) => Normal(b) && Normal(x) && PowRule(b, x) == Ok(e)
  }

  /** A normal tree is left exactly as it is. */
  lemma {:induction false} NormalIsFixed(e: Expr)
    requires Normal(e)
    ensures Simplify(e) == Ok(e)
  {
    match e
    case Number(_) =>
    case Symbol(_) =>
    case Add(l, r) => NormalIsFixed(l); NormalIsFixed(r);
    case Mul(l, r) => NormalIsFixed(l); NormalIsFixed(r);
    case Pow(b, x) => NormalIsFixed(b); NormalIsFixed(x);
  }

  /** In a normal product with a Number on the left, the other operand is a plain term. */
  lemma NormalScaledTerm(e: Expr)
    requires Normal(e) && IsScaled(e)
    ensures Normal(e.right) && !e.right.Number? && !IsScaled(e.right)
    ensures !IsOneNumber(e.left) && !IsZeroNumber(e.left)
  {
  }

  /** A coefficient times a plain normal term is normal, unless the coefficient is 0 or 1. */
  lemma ScaledIsNormal(c: Num, t: Expr)
    requires Normal(t) && !t.Number? && !IsScaled(t)
    requires !IsZero(c) && !IsOne(c)
    ensures Normal(Mul(Number(c), t))
  {
  }

  lemma AddRuleNormal(l: Expr, r: Expr)
    requires Normal(l) && Normal(r)
    ensures Normal(AddRule(l, r))
  {
    if IsZeroNumber(r) || IsZeroNumber(l) || (l.Number? && r.Number?) {
    } else if IsScaled(l) && IsScaled(r) && l.right == r.right {
      NormalScaledTerm(l);
      var c := Plus(l.left.value, r.left.value);
      if !IsZero(c) && !IsOne(c) {
        ScaledIsNormal(c, l.right);
      }
    } else if l == r {
      ScaledIsNormal(Int(2), l);
    } else {
      // neither `x + 1*x` nor `1*x + x` can fire: a normal product has no coefficient 1
      if IsScaled(r) { NormalScaledTerm(r); }
      if IsScaled(l) { NormalScaledTerm(l); }
    }
  }

  lemma MulRuleNormal(l: Expr, r: Expr)
    requires Normal(l) && Normal(r)
    ensures Normal(MulRule(l, r))
  {
    if IsOneNumber(r) || IsOneNumber(l) || IsZeroNumber(r) || IsZeroNumber(l) {
    } else if l.Number? && r.Number? {
    } else if l.Number? && IsScaled(r) {
      NormalScaledTerm(r);
      var c := Times(l.value, r.left.value);
      if !IsZero(c) && !IsOne(c) {
        ScaledIsNormal(c, r.right);
      }
    }
  }

  lemma PowRuleNormal(b: Expr, x: Expr)
    requires Normal(b) && Normal(x) && PowRule(b, x).Ok?
    ensures Normal(PowRule(b, x).value)
  {
  }

  /** Every tree `Simplify` returns is normal. */
  lemma {:induction false} SimplifyIsNormal(e: Expr)
    requires Simplify(e).Ok?
    ensures Normal(Simplify(e).value)
  {
    match e
    case Number(_) =>
    case Symbol(_) =>
    case Add(l, r) =>
      SimplifyIsNormal(l); SimplifyIsNormal(r);
      AddRuleNormal(Simplify(l).value, Simplify(r).value);
    case Mul(l, r) =>
      SimplifyIsNormal(l); SimplifyIsNormal(r);
      MulRuleNormal(Simplify(l).value, Simplify(r).value);
    case Pow(b, x) =>
      SimplifyIsNormal(b); SimplifyIsNormal(x);
      PowRuleNormal(Simplify(b).value, Simplify(x).value);
  }

  /** Simplifying a simplified tree changes nothing. */
  lemma SimplifyIdempotent(e: Expr)
    requires Simplify(e).Ok?
    ensures Simplify(Simplify(e).value) == Simplify(e)
  {
    SimplifyIsNormal(e);
    NormalIsFixed(Simplify(e).value);
  }

  /** A tree containing no Pow node. */
  predicate PowFree(e: Expr)
  {
    match e
    case Number(_) => true
    case Symbol(_) => true
    case Add(l, r) => PowFree(l) && PowFree(r)
    case Mul(l, r) => PowFree(l) && PowFree(r)
    case Pow(_, _) => false
  }

  /** Without powers there is nothing to fold into ZeroDivisionError: `Simplify` succeeds. */
  lemma {:induction false} PowFreeSimplifies(e: Expr)
    requires PowFree(e)
    ensures Simplify(e).Ok?
  {
    match e
    case Number(_) =>
    case Symbol(_) =>
    case Add(l, r) => PowFreeSimplifies(l); PowFreeSimplifies(r);
    case Mul(l, r) => PowFreeSimplifies(l); PowFreeSimplifies(r);
  }

  /**
   * A Pow fails exactly when its children simplify to a zero Number and a
   * negative Number (it also fails when a child fails).
   */
  lemma PowFailure(b: Expr, x: Expr, b': Expr, x': Expr)
    requires Simplify(b) == Ok(b') && Simplify(x) == Ok(x')
    ensures Simplify(Pow(b, x)).Err? <==> IsZeroNumber(b') && x'.Number? && Value(x'.value) < 0.0
  {
  }
}
