/** The five converters of a formula to a smaller operator basis. Each is a total
    recursive function; its `ensures` states the basis its result lies in, and that
    fact is what makes the recursive calls on rewritten (often larger) formulas terminate.
    Truth-value preservation, the variables used and idempotence are proved in `Properties`. */
module Operators {
  import opened Syntax

  /** Rewrites `f` into `{~, &, |}`: constants become `p & ~p` / `~(p & ~p)`, `->` becomes
      `~a | b`, `-&`/`-|` become negated `&`/`|`, and `+`/`<->` are expanded over the already
      converted operands and converted once more. */
  function ToNotAndOr(f: Formula): (r: Formula)
    ensures UsesOnly(r, NotAndOr)
    decreases CountOps(f, Hard), Size(f)
  {
    match f
    case Var(_) => f
    case F => Bin(And, P, Not(P))
    case T => Not(Bin(And, P, Not(P)))
    case Not(a) => Not(ToNotAndOr(a))
    case Bin(op, a, b) =>
      var left := ToNotAndOr(a);
      var right := ToNotAndOr(b);
      NoOpsOutsideBasis(left, NotAndOr, Hard);
      NoOpsOutsideBasis(right, NotAndOr, Hard);
      match op
      case And => Bin(And, left, right)
      case Or => Bin(Or, left, right)
      case Implies => Bin(Or, Not(left), right)
      case Xor =>
        assert CountOps(Bin(And, Not(left), right), Hard) == 0;
        assert CountOps(Bin(And, left, Not(right)), Hard) == 0;
        ToNotAndOr(Bin(Or, Bin(And, Not(left), right), Bin(And, left, Not(right))))
      case Iff =>
        assert CountOps(Bin(Implies, left, right), Hard) == 0;
        assert CountOps(Bin(Implies, right, left), Hard) == 0;
        ToNotAndOr(Bin(And, Bin(Implies, left, right), Bin(Implies, right, left)))
      case Nand => Not(Bin(And, left, right))
      case Nor => Not(Bin(Or, left, right))
  }

  /** The second pass of `to_not_and`: replaces each `a | b` by `~(~a' & ~b')` and leaves
      variables, constants, `~` and `&` in place. Only defined on what it can handle. */
  function ReplaceOr(f: Formula): (r: Formula)
    requires UsesOnly(f, NotAndOrConst)
    ensures UsesOnly(r, NotAndConst)
    ensures UsesOnly(f, NotAndOr) ==> UsesOnly(r, NotAnd)
  {
    match f
    case Var(_) => f
    case T => f
    case F => f
    case Not(a) => Not(ReplaceOr(a))
    case Bin(And, a, b) => Bin(And, ReplaceOr(a), ReplaceOr(b))
    case Bin(Or, a, b) =>
      var A := ReplaceOr(a);
      var B := ReplaceOr(b);
      assert UsesOnly(Not(A), NotAndConst) && UsesOnly(Not(B), NotAndConst);
      assert UsesOnly(f, NotAndOr) ==> UsesOnly(Not(A), NotAnd) && UsesOnly(Not(B), NotAnd);
      Not(Bin(And, Not(A), Not(B)))
  }

  /** Rewrites `f` into `{~, &}`: first into `{~, &, |}`, then eliminates `|` by De Morgan. */
  function ToNotAnd(f: Formula): (r: Formula)
    ensures UsesOnly(r, NotAnd)
  {
    var g := ToNotAndOr(f);
    UsesOnlyWeaken(g, NotAndOr, NotAndOrConst);
    ReplaceOr(g)
  }

  /** The `{-&}` encoding of `T`: `p -& (p -& p)`. */
  const NandTrue: Formula := Bin(Nand, P, Bin(Nand, P, P))

  /** Rewrites `f` into `{-&}`: `~a` is `a' -& a'`, `&` and `|` are spelled out with `-&`,
      `->` and `-|` are rewritten over the original operands and converted again, and `+`/`<->`
      go through `ToNotAndOr` first. */
  function ToNand(f: Formula): (r: Formula)
    ensures UsesOnly(r, NandOnly)
    decreases CountOps(f, Hard), CountOps(f, {Implies}), Size(f)
  {
    match f
    case Var(_) => f
    case T => NandTrue
    case F => Bin(Nand, NandTrue, NandTrue)
    case Not(a) =>
      var a' := ToNand(a);
      Bin(Nand, a', a')
    case Bin(op, a, b) =>
      var left := ToNand(a);
      var right := ToNand(b);
      match op
      case And =>
        var x := Bin(Nand, left, right);
        Bin(Nand, x, x)
      case Or => Bin(Nand, Bin(Nand, left, left), Bin(Nand, right, right))
      case Implies =>
        assert CountOps(Bin(Or, Not(a), b), Hard) == CountOps(f, Hard);
        assert CountOps(Bin(Or, Not(a), b), {Implies}) < CountOps(f, {Implies});
        ToNand(Bin(Or, Not(a), b))
      case Xor =>
        var g := ToNotAndOr(f);
        NoOpsOutsideBasis(g, NotAndOr, Hard);
        ToNand(g)
      case Iff =>
        var g := ToNotAndOr(f);
        NoOpsOutsideBasis(g, NotAndOr, Hard);
        ToNand(g)
      case Nand => Bin(Nand, left, right)
      case Nor =>
        assert CountOps(Not(Bin(Or, a, b)), Hard) < CountOps(f, Hard);
        ToNand(Not(Bin(Or, a, b)))
  }

  /** Rewrites `f` into `{->, ~}`: `T` is `p -> p`, `F` is `~(p -> p)`, `a & b` is
      `~(a' -> ~b')`, `a | b` is `~a' -> b'`; `+`, `<->`, `-&`, `-|` go through `ToNotAndOr`. */
  function ToImpliesNot(f: Formula): (r: Formula)
    ensures UsesOnly(r, ImpliesNot)
    decreases CountOps(f, Hard), Size(f)
  {
    match f
    case Var(_) => f
    case T => Bin(Implies, P, P)
    case F => Not(Bin(Implies, P, P))
    case Not(a) => Not(ToImpliesNot(a))
    case Bin(op, a, b) =>
      var left := ToImpliesNot(a);
      var right := ToImpliesNot(b);
      if op == Implies then Bin(Implies, left, right)
      else if op == And then
        assert UsesOnly(Not(right), ImpliesNot);
        Not(Bin(Implies, left, Not(right)))
      else if op == Or then Bin(Implies, Not(left), right)
      else
        var g := ToNotAndOr(f);
        NoOpsOutsideBasis(g, NotAndOr, Hard);
        ToImpliesNot(g)
  }

  /** Rewrites `f` into `{->, F}`: `T` is `F -> F`, `~a` is `a' -> F`, `a & b` is
      `(a' -> (b' -> F)) -> F`, `a | b` is the conversion of `(a' -> F) & (b' -> F)`
      followed by `-> F`; `+`, `<->`, `-&`, `-|` go through `ToNotAndOr`. */
  function ToImpliesFalse(f: Formula): (r: Formula)
    ensures UsesOnly(r, ImpliesFalse)
    decreases CountOps(f, Hard), CountOps(f, {Or}), Size(f)
  {
    match f
    case Var(_) => f
    case T => Bin(Implies, F, F)
    case F => F
    case Not(a) =>
      var a' := ToImpliesFalse(a);
      Bin(Implies, a', F)
    case Bin(op, a, b) =>
      if op !in {And, Or, Implies} then
        var g := ToNotAndOr(f);
        NoOpsOutsideBasis(g, NotAndOr, Hard);
        ToImpliesFalse(g)
      else
        var left := ToImpliesFalse(a);
        var right := ToImpliesFalse(b);
        if op == Implies then Bin(Implies, left, right)
        else if op == And then
          var inner := Bin(Implies, left, Bin(Implies, right, F));
          assert UsesOnly(Bin(Implies, right, F), ImpliesFalse);
          Bin(Implies, inner, F)
        else
          NoOpsOutsideBasis(left, ImpliesFalse, Hard);
          NoOpsOutsideBasis(right, ImpliesFalse, Hard);
          NoOpsOutsideBasis(left, ImpliesFalse, {Or});
          NoOpsOutsideBasis(right, ImpliesFalse, {Or});
          var g := Bin(And, Bin(Implies, left, F), Bin(Implies, right, F));
          assert CountOps(g, Hard) == 0;
          assert CountOps(g, {Or}) == 0 < CountOps(f, {Or});
          var a' := ToImpliesFalse(g);
          Bin(Implies, a', F)
  }
}
