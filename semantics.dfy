/** Truth values of formulas under a valuation of the variables. */
module Semantics {
  import opened Syntax

  /** The truth table of each binary operator. */
  function Apply(op: BinOp, a: bool, b: bool): bool
  {
    match op
    case And => a && b
    case Or => a || b
    case Implies => a ==> b
    case Xor => a != b
    case Iff => a == b
    case Nand => !(a && b)
    case Nor => !(a || b)
  }

  /** The value of `f` when each variable `x` has the value `v(x)`. */
  function Eval(f: Formula, v: string -> bool): bool
  {
    match f
    case Var(x) => v(x)
    case T => true
    case F => false
    case Not(a) => !Eval(a, v)
    case Bin(op, a, b) => Apply(op, Eval(a, v), Eval(b, v))
  }
}
