/**
 * The MiniSym expression tree (minisym_ast.py) and its infix rendering.
 *
 * The Python classes assign their fields once in `__init__` and nothing ever
 * reassigns them, so the tree is an immutable value: a datatype. Equality is
 * Dafny's structural datatype equality (same node kind, equal fields, operand
 * order significant), which is the equality the repository's tests assert.
 */
module MinisymAst {
  import opened Numeric

  datatype Expr =
    | Number(value: Num)
    | Symbol(name: string)
    | Add(left: Expr, right: Expr)
    | Mul(left: Expr, right: Expr)
    | Pow(base: Expr, exp: Expr)

  /** The number of nodes of a tree. */
  function Size(e: Expr): (n: nat)
    ensures n >= 1
  {
    match e
    case Number(_) => 1
    case Symbol(_) => 1
    case Add(l, r) => 1 + Size(l) + Size(r)
    case Mul(l, r) => 1 + Size(l) + Size(r)
    case Pow(b, x) => 1 + Size(b) + Size(x)
  }

  /** `str(value)` of a Number: Python's int text, or its float text (`floatText`, not modelled). */
  function NumberText(n: Num, floatText: real -> string): string
  {
    match n
    case Int(i) => IntText(i)
    case Float(r) => floatText(r)
  }

  /**
   * `str(e)`: a Number renders as its value, a Symbol as its name, and every
   * binary node as `(left OP right)` with OP one of `+`, `*` and `**`.
   */
  function ToString(e: Expr, floatText: real -> string): (s: string)
    ensures !e.Number? && !e.Symbol? ==> |s| >= 2 && s[0] == '(' && s[|s| - 1] == ')'
    ensures e.Number? && e.value.Int? ==> |s| > 0
  {
    match e
    case Number(n) => NumberText(n, floatText)
    case Symbol(name) => name
    case Add(l, r) => "(" + ToString(l, floatText) + " + " + ToString(r, floatText) + ")"
    case Mul(l, r) => "(" + ToString(l, floatText) + " * " + ToString(r, floatText) + ")"
    case Pow(b, x) => "(" + ToString(b, floatText) + " ** " + ToString(x, floatText) + ")"
  }
}
