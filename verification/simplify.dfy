/**
 * The simplification engine (simplify.py): one post-order pass. The children
 * of an Add, Mul or Pow are simplified first, then that node's ordered rule
 * list is applied once, first match wins, with no re-simplification of what
 * a rule builds. Number and Symbol nodes come back unchanged.
 *
 * `simplify_add`, `simplify_mul` and `simplify_pow` each simplify their
 * children and then apply their rules; the rules on already simplified
 * children are `AddRule`, `MulRule` and `PowRule`.
 */
module Simplifier {
  import opened Wrappers
  import opened Numeric
  import opened MinisymAst

  /**
   * The one failure of `simplify` the model keeps: folding a zero base with
   * a negative exponent raises ZeroDivisionError, which the `except
   * (OverflowError, ValueError)` around the fold does not catch. Python's
   * OverflowError from an int/float sum or product and TypeError from
   * comparing a complex exponent are not modelled.
   */
  datatype SimplifyError = ZeroToNegativePower(base: Num, exp: Num)

  predicate IsZeroNumber(e: Expr)
  {
    e.Number? && IsZero(e.value)
  }

  predicate IsOneNumber(e: Expr)
  {
    e.Number? && IsOne(e.value)
  }

  /** A product with a Number as its left operand: a coefficient times a term. */
  predicate IsScaled(e: Expr)
  {
    e.Mul? && e.left.Number?
  }

  function Simplify(e: Expr): (r: Result<Expr, SimplifyError>)
    ensures r.Ok? ==> Size(r.value) <= Size(e)
    ensures e.Number? || e.Symbol? ==> r == Ok(e)
    decreases e, 1
  {
    match e
    case Number(_) => Ok(e)
    case Symbol(_) => Ok(e)
    case Add(_, _) => SimplifyAdd(e)
    case Mul(_, _) => SimplifyMul(e)
    case Pow(_, _) => SimplifyPow(e)
  }

  function SimplifyAdd(e: Expr): (r: Result<Expr, SimplifyError>)
    requires e.Add?
    ensures r.Ok? ==> Size(r.value) <= Size(e)
    decreases e, 0
  {
    match Simplify(e.left)
    case Err(x) => Err(x)
    case Ok(left) =>
      match Simplify(e.right)
      case Err(x) => Err(x)
      case Ok(right) => Ok(AddRule(left, right))
  }

  function SimplifyMul(e: Expr): (r: Result<Expr, SimplifyError>)
    requires e.Mul?
    ensures r.Ok? ==> Size(r.value) <= Size(e)
    decreases e, 0
  {
    match Simplify(e.left)
    case Err(x) => Err(x)
    case Ok(left) =>
      match Simplify(e.right)
      case Err(x) => Err(x)
      case Ok(right) => Ok(MulRule(left, right))
  }

  function SimplifyPow(e: Expr): (r: Result<Expr, SimplifyError>)
    requires e.Pow?
    ensures r.Ok? ==> Size(r.value) <= Size(e)
    decreases e, 0
  {
    match Simplify(e.base)
    case Err(x) => Err(x)
    case Ok(base) =>
      match Simplify(e.exp)
      case Err(x) => Err(x)
      case Ok(exp) => PowRule(base, exp)
  }

  /**
   * The Add rules, in order: `x + 0`, `0 + x`, constant folding, merging
   * `a*R + b*R`, `x + x`, `x + 1*x`, `1*x + x`; otherwise the Add is rebuilt.
   */
  function AddRule(left: Expr, right: Expr): (r: Expr)
    ensures Size(r) <= 1 + Size(left) + Size(right)
    ensures IsZeroNumber(right) ==> r == left
    ensures r == Add(left, right) ==>
              && !IsZeroNumber(left) && !IsZeroNumber(right)
              && !(left.Number? && right.Number?)
              && !(IsScaled(left) && IsScaled(right) && left.right == right.right)
              && left != right
  {
    if IsZeroNumber(right) then left
    else if IsZeroNumber(left) then right
    else if left.Number? && right.Number? then Number(Plus(left.value, right.value))
    else if IsScaled(left) && IsScaled(right) && left.right == right.right then
      var coefficient := Plus(left.left.value, right.left.value);
      if IsZero(coefficient) then Number(Int(0))
      else if IsOne(coefficient) then left.right
      else Mul(Number(coefficient), left.right)
    else if left == right then Mul(Number(Int(2)), left)
    else if IsScaled(right) && IsOne(right.left.value) && right.right == left then
      Mul(Number(Int(2)), left)
    else if IsScaled(left) && IsOne(left.left.value) && left.right == right then
      Mul(Number(Int(2)), right)
    else Add(left, right)
  }

  /**
   * The Mul rules, in order: `x * 1`, `1 * x`, then `x * 0`, `0 * x`,
   * constant folding, and `a * (b * Y)`; otherwise the Mul is rebuilt with
   * its operands in their original order.
   */
  function MulRule(left: Expr, right: Expr): (r: Expr)
    ensures Size(r) <= 1 + Size(left) + Size(right)
    ensures IsOneNumber(right) ==> r == left
    ensures IsOneNumber(left) && !IsOneNumber(right) ==> r == right
    ensures r == Mul(left, right) ==>
              && !IsOneNumber(left) && !IsOneNumber(right)
              && !IsZeroNumber(left) && !IsZeroNumber(right)
              && !(left.Number? && right.Number?)
              && !(left.Number? && IsScaled(right))
  {
    if IsOneNumber(right) then left
    else if IsOneNumber(left) then right
    else if IsZeroNumber(right) then Number(Int(0))
    else if IsZeroNumber(left) then Number(Int(0))
    else if left.Number? && right.Number? then Number(Times(left.value, right.value))
    else if left.Number? && IsScaled(right) then
      var coefficient := Times(left.value, right.left.value);
      if IsZero(coefficient) then Number(Int(0))
      else if IsOne(coefficient) then right.right
      else Mul(Number(coefficient), right.right)
    else Mul(left, right)
  }

  /**
   * The Pow rules, in order: `x ^ 1`, `x ^ 0` (so `0 ^ 0` is 1), `1 ^ x`,
   * `0 ^ x` for a positive Number `x`, then constant folding. A fold that
   * raises ZeroDivisionError is the error result; a fold this model does not
   * compute leaves the Pow, as Python's OverflowError handler does.
   */
  function PowRule(base: Expr, exp: Expr): (r: Result<Expr, SimplifyError>)
    ensures r.Ok? ==> Size(r.value) <= 1 + Size(base) + Size(exp)
    ensures r.Err? <==> IsZeroNumber(base) && exp.Number? && Value(exp.value) < 0.0
    ensures IsZeroNumber(exp) ==> r == Ok(Number(Int(1)))
    ensures r == Ok(Pow(base, exp)) ==>
              && !IsOneNumber(exp) && !IsZeroNumber(exp) && !IsOneNumber(base)
              && !(base.Number? && exp.Number? && Power(base.value, exp.value).Folded?)
  {
    if IsOneNumber(exp) then Ok(base)
    else if IsZeroNumber(exp) then Ok(Number(Int(1)))
    else if IsOneNumber(base) then Ok(Number(Int(1)))
    else if IsZeroNumber(base) && exp.Number? && Value(exp.value) > 0.0 then Ok(Number(Int(0)))
    else if base.Number? && exp.Number? then
      match Power(base.value, exp.value)
      case Folded(n) => Ok(Number(n))
      case ZeroDivision => Err(ZeroToNegativePower(base.value, exp.value))
      case Unfolded => Ok(Pow(base, exp))
    else Ok(Pow(base, exp))
  }

  /** `collect_like_terms`: a non-Add comes back as it is; an Add is simplified. */
  function CollectLikeTerms(e: Expr): (r: Result<Expr, SimplifyError>)
    ensures !e.Add? ==> r == Ok(e)
    ensures e.Add? ==> r == Simplify(e)
  {
    if !e.Add? then Ok(e) else Simplify(e)
  }
}
