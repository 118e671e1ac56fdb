/**
 * The numbers a MiniSym `Number` node can hold: Python ints and floats.
 *
 * An int is an exact unbounded integer, as in Python. A float is modelled by
 * the real number it denotes; IEEE rounding, overflow and infinities are not
 * modelled. Python's `==` between numbers compares values, so a float 0.0 is
 * "equal to 0" for the simplifier's identity checks: `IsZero` and `IsOne`
 * compare values, not tags.
 */
module Numeric {

  datatype Num = Int(i: int) | Float(r: real)

  /** The mathematical value of a number, whatever its tag. */
  function Value(n: Num): real
  {
    match n
    case Int(i) => i as real
    case Float(r) => r
  }

  /** Python's `n == 0` for an int or a float. */
  predicate IsZero(n: Num)
  {
    Value(n) == 0.0
  }

  /** Python's `n == 1` for an int or a float. */
  predicate IsOne(n: Num)
  {
    Value(n) == 1.0
  }

  /** Python's `a + b`: int + int stays int, any float operand makes a float. */
  function Plus(a: Num, b: Num): (r: Num)
    ensures Value(r) == Value(a) + Value(b)
    ensures r.Int? <==> a.Int? && b.Int?
  {
    if a.Int? && b.Int? then Int(a.i + b.i) else Float(Value(a) + Value(b))
  }

  /** Python's `a * b`, with the same int/float promotion as `Plus`. */
  function Times(a: Num, b: Num): (r: Num)
    ensures Value(r) == Value(a) * Value(b)
    ensures r.Int? <==> a.Int? && b.Int?
  {
    if a.Int? && b.Int? then Int(a.i * b.i) else Float(Value(a) * Value(b))
  }

  /** Python's true division `1 / n`, which is a float even for an int `n`. */
  function Reciprocal(n: Num): (r: Num)
    requires !IsZero(n)
    ensures r.Float? && Value(r) * Value(n) == 1.0
  {
    Float(1.0 / Value(n))
  }

  /** `b ** e` on integers, for a natural exponent. */
  function IntPow(b: int, e: nat): int
  {
    if e == 0 then 1 else b * IntPow(b, e - 1)
  }

  /** `x ** k` on reals, for a natural exponent. */
  function RealNatPow(x: real, k: nat): real
  {
    if k == 0 then 1.0 else x * RealNatPow(x, k - 1)
  }

  /** `x ** k` on reals for an integer exponent; a negative one needs a nonzero base. */
  function RealPow(x: real, k: int): real
    requires k >= 0 || x != 0.0
  {
    if k >= 0 then RealNatPow(x, k)
    else RealNatPowNonzero(x, -k); 1.0 / RealNatPow(x, -k)
  }

  predicate IsIntegral(r: real)
  {
    r.Floor as real == r
  }

  lemma {:induction false} IntPowAsReal(b: int, e: nat)
    ensures IntPow(b, e) as real == RealNatPow(b as real, e)
  {
    if e > 0 {
      IntPowAsReal(b, e - 1);
    }
  }

  lemma {:induction false} RealNatPowNonzero(x: real, k: nat)
    requires x != 0.0
    ensures RealNatPow(x, k) != 0.0
  {
    if k > 0 {
      RealNatPowNonzero(x, k - 1);
    }
  }

  /** What Python's `a ** b` does, as seen by the simplifier's constant folding. */
  datatype PowOutcome =
    | Folded(n: Num)   // a number came back
    | ZeroDivision     // ZeroDivisionError: zero raised to a negative power
    | Unfolded         // a float power with a non-integral exponent: not computed here

  /**
   * Python's `a ** b`. An int raised to a natural int is an int; an int raised
   * to a negative int, or any power with a float operand, is a float; zero
   * raised to a negative power raises ZeroDivisionError. A non-integral float
   * exponent yields an irrational (or, for a negative base, complex) value in
   * Python; that result is not computed by this model.
   */
  function Power(a: Num, b: Num): (o: PowOutcome)
    ensures o.ZeroDivision? <==> IsZero(a) && Value(b) < 0.0
    ensures IsIntegral(Value(b)) && !o.ZeroDivision? ==> o.Folded?
    ensures o.Folded? ==> IsIntegral(Value(b))
    ensures o.Folded? ==> Value(o.n) == RealPow(Value(a), Value(b).Floor)
    ensures o.Folded? ==> (o.n.Int? <==> a.Int? && b.Int? && b.i >= 0)
  {
    if IsZero(a) && Value(b) < 0.0 then
      ZeroDivision
    else if a.Int? && b.Int? then
      IntPowAsReal(a.i, if b.i >= 0 then b.i else -b.i);
      if b.i >= 0 then Folded(Int(IntPow(a.i, b.i)))
      else RealNatPowNonzero(a.i as real, -b.i); Folded(Float(1.0 / (IntPow(a.i, -b.i) as real)))
    else if IsIntegral(Value(b)) then
      Folded(Float(RealPow(Value(a), Value(b).Floor)))
    else
      Unfolded
  }

  // ----- Decimal text of numbers -----

  predicate IsDigit(c: char)
  {
    '0' <= c <= '9'
  }

  predicate AllDigits(s: string)
  {
    forall k | 0 <= k < |s| :: IsDigit(s[k])
  }

  function DigitChar(d: nat): (c: char)
    requires d < 10
    ensures IsDigit(c)
  {
    ('0' as int + d) as char
  }

  function DigitValue(c: char): (d: nat)
    requires IsDigit(c)
    ensures d < 10 && DigitChar(d) == c
  {
    c as int - '0' as int
  }

  /** The value of a string of decimal digits, read most significant first (Python's `int(s)`). */
  function DigitsValue(s: string): nat
    requires AllDigits(s)
  {
    if s == [] then 0 else DigitsValue(s[..|s| - 1]) * 10 + DigitValue(s[|s| - 1])
  }

  /** The decimal text of a natural number, without leading zeros. */
  function NatText(n: nat): (s: string)
    ensures |s| > 0 && AllDigits(s)
    ensures |s| > 1 ==> s[0] != '0'
  {
    if n < 10 then [DigitChar(n)] else NatText(n / 10) + [DigitChar(n % 10)]
  }

  /** `10 ** n`, the scale of a fraction of `n` decimal digits. */
  function Pow10(n: nat): (p: nat)
    ensures p >= 1
  {
    if n == 0 then 1 else 10 * Pow10(n - 1)
  }

  /** Python's `str(i)` for an int. */
  function IntText(i: int): string
  {
    if i < 0 then "-" + NatText(-i) else NatText(i)
  }

  /** Reading back the decimal text of a natural number gives that number. */
  lemma {:induction false} DigitsValueOfNatText(n: nat)
    ensures DigitsValue(NatText(n)) == n
  {
    if n >= 10 {
      var s := NatText(n);
      assert s[..|s| - 1] == NatText(n / 10);
      DigitsValueOfNatText(n / 10);
    }
  }
}
