/** Propositional formulas as immutable trees, the measures used to show that the
    rewriters terminate, and the notion of a formula using only a given operator basis. */
module Syntax {

  /** The binary operators of the grammar: `&`, `|`, `->`, `+`, `<->`, `-&`, `-|`. */
  datatype BinOp = And | Or | Implies | Xor | Iff | Nand | Nor

  /** A formula: a variable, one of the constants `T`/`F`, a negation `~`, or a binary node.
      Datatype equality is structural equality of trees. */
  datatype Formula =
    | Var(name: string)
    | T
    | F
    | Not(first: Formula)
    | Bin(op: BinOp, first: Formula, second: Formula)

  /** The variable every converter uses to encode constants. */
  const P: Formula := Var("p")

  /** Number of nodes. */
  function Size(f: Formula): nat
  {
    match f
    case Var(_) => 1
    case T => 1
    case F => 1
    case Not(a) => 1 + Size(a)
    case Bin(_, a, b) => 1 + Size(a) + Size(b)
  }

  /** Number of binary nodes whose operator is in `ops`. */
  function CountOps(f: Formula, ops: set<BinOp>): nat
  {
    match f
    case Var(_) => 0
    case T => 0
    case F => 0
    case Not(a) => CountOps(a, ops)
    case Bin(op, a, b) => (if op in ops then 1 else 0) + CountOps(a, ops) + CountOps(b, ops)
  }

  /** The operators that `ToNotAndOr` eliminates; the first component of every termination measure. */
  const Hard: set<BinOp> := {Xor, Iff, Nand, Nor}

  /** The names of the variables occurring in `f`. */
  function Vars(f: Formula): set<string>
  {
    match f
    case Var(x) => {x}
    case T => {}
    case F => {}
    case Not(a) => Vars(a)
    case Bin(_, a, b) => Vars(a) + Vars(b)
  }

  /** An operator basis: which constants (by truth value), whether `~`, and which
      binary operators may occur. Variables are always allowed. */
  datatype Basis = Basis(constants: set<bool>, negation: bool, binary: set<BinOp>)

  /** `{~, &, |}` */
  const NotAndOr := Basis({}, true, {And, Or})
  /** `{~, &, |}` together with both constants: what the OR-eliminating pass accepts. */
  const NotAndOrConst := Basis({true, false}, true, {And, Or})
  /** `{~, &}` */
  const NotAnd := Basis({}, true, {And})
  /** `{~, &}` together with both constants. */
  const NotAndConst := Basis({true, false}, true, {And})
  /** `{-&}` */
  const NandOnly := Basis({}, false, {Nand})
  /** `{->, ~}` */
  const ImpliesNot := Basis({}, true, {Implies})
  /** `{->, F}` */
  const ImpliesFalse := Basis({false}, false, {Implies})

  /** Every node of `f` is a variable or an operator of `b`. */
  predicate UsesOnly(f: Formula, b: Basis)
  {
    match f
    case Var(_) => true
    case T => true in b.constants
    case F => false in b.constants
    case Not(a) => b.negation && UsesOnly(a, b)
    case Bin(op, x, y) => op in b.binary && UsesOnly(x, b) && UsesOnly(y, b)
  }

  /** A larger basis admits every formula a smaller one does. */
  lemma {:induction false} UsesOnlyWeaken(f: Formula, b: Basis, c: Basis)
    requires UsesOnly(f, b)
    requires b.constants <= c.constants && (b.negation ==> c.negation) && b.binary <= c.binary
    ensures UsesOnly(f, c)
  {
    match f
    case Var(_) =>
    case T =>
    case F =>
    case Not(a) => UsesOnlyWeaken(a, b, c);
    case Bin(_, x, y) => UsesOnlyWeaken(x, b, c); UsesOnlyWeaken(y, b, c);
  }

  /** A formula over `b` holds no node whose operator lies outside `b`. */
  lemma {:induction false} NoOpsOutsideBasis(f: Formula, b: Basis, ops: set<BinOp>)
    requires UsesOnly(f, b)
    requires b.binary !! ops
    ensures CountOps(f, ops) == 0
  {
    match f
    case Var(_) =>
    case T =>
    case F =>
    case Not(a) => NoOpsOutsideBasis(a, b, ops);
    case Bin(_, x, y) => NoOpsOutsideBasis(x, b, ops); NoOpsOutsideBasis(y, b, ops);
  }
}
