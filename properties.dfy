/** What the converters of `Operators` promise beyond their target basis: each one keeps
    the truth value under every valuation, introduces no variable other than `p`, leaves a
    formula already in its basis unchanged, and is therefore idempotent. */
module Properties {
  import opened Syntax
  import opened Semantics
  import opened Operators

  // ---------------------------------------------------------------- to_not_and_or

  lemma {:induction false} ToNotAndOrSound(f: Formula, v: string -> bool)
    ensures Eval(ToNotAndOr(f), v) == Eval(f, v)
    decreases CountOps(f, Hard), Size(f)
  {
    match f
    case Var(_) =>
    case T =>
    case F =>
    case Not(a) => ToNotAndOrSound(a, v);
    case Bin(op, a, b) =>
      ToNotAndOrSound(a, v);
      ToNotAndOrSound(b, v);
      var left, right := ToNotAndOr(a), ToNotAndOr(b);
      NoOpsOutsideBasis(left, NotAndOr, Hard);
      NoOpsOutsideBasis(right, NotAndOr, Hard);
      match op
      case And =>
      case Or =>
      case Implies =>
      case Xor =>
        assert CountOps(Bin(And, Not(left), right), Hard) == 0;
        assert CountOps(Bin(And, left, Not(right)), Hard) == 0;
        var x := Bin(Or, Bin(And, Not(left), right), Bin(And, left, Not(right)));
        ToNotAndOrSound(x, v);
        assert Eval(Bin(And, Not(left), right), v) == (!Eval(left, v) && Eval(right, v));
        assert Eval(Bin(And, left, Not(right)), v) == (Eval(left, v) && !Eval(right, v));
      case Iff =>
        assert CountOps(Bin(Implies, left, right), Hard) == 0;
        assert CountOps(Bin(Implies, right, left), Hard) == 0;
        ToNotAndOrSound(Bin(And, Bin(Implies, left, right), Bin(Implies, right, left)), v);
      case Nand =>
      case Nor =>
  }

  lemma {:induction false} ToNotAndOrVars(f: Formula)
    ensures Vars(ToNotAndOr(f)) <= Vars(f) + {"p"}
    decreases CountOps(f, Hard), Size(f)
  {
    match f
    case Var(_) =>
    case T =>
    case F =>
    case Not(a) => ToNotAndOrVars(a);
    case Bin(op, a, b) =>
      ToNotAndOrVars(a);
      ToNotAndOrVars(b);
      var left, right := ToNotAndOr(a), ToNotAndOr(b);
      NoOpsOutsideBasis(left, NotAndOr, Hard);
      NoOpsOutsideBasis(right, NotAndOr, Hard);
      match op
      case And =>
      case Or =>
      case Implies =>
      case Xor =>
        assert CountOps(Bin(And, Not(left), right), Hard) == 0;
        assert CountOps(Bin(And, left, Not(right)), Hard) == 0;
        var x := Bin(Or, Bin(And, Not(left), right), Bin(And, left, Not(right)));
        ToNotAndOrVars(x);
        assert Vars(Bin(And, Not(left), right)) == Vars(left) + Vars(right);
        assert Vars(Bin(And, left, Not(right))) == Vars(left) + Vars(right);
      case Iff =>
        assert CountOps(Bin(Implies, left, right), Hard) == 0;
        assert CountOps(Bin(Implies, right, left), Hard) == 0;
        ToNotAndOrVars(Bin(And, Bin(Implies, left, right), Bin(Implies, right, left)));
      case Nand =>
      case Nor =>
  }

  lemma {:induction false} ToNotAndOrIdentity(f: Formula)
    requires UsesOnly(f, NotAndOr)
    ensures ToNotAndOr(f) == f
  {
    match f
    case Var(_) =>
    case Not(a) => ToNotAndOrIdentity(a);
    case Bin(_, a, b) => ToNotAndOrIdentity(a); ToNotAndOrIdentity(b);
  }

  lemma ToNotAndOrIdempotent(f: Formula)
    ensures ToNotAndOr(ToNotAndOr(f)) == ToNotAndOr(f)
  {
    ToNotAndOrIdentity(ToNotAndOr(f));
  }

  // ---------------------------------------------------------------- to_not_and

  lemma {:induction false} ReplaceOrSound(f: Formula, v: string -> bool)
    requires UsesOnly(f, NotAndOrConst)
    ensures Eval(ReplaceOr(f), v) == Eval(f, v)
  {
    match f
    case Var(_) =>
    case T =>
    case F =>
    case Not(a) => ReplaceOrSound(a, v);
    case Bin(op, a, b) =>
      ReplaceOrSound(a, v);
      ReplaceOrSound(b, v);
      if op == Or {
        var A, B := ReplaceOr(a), ReplaceOr(b);
        assert Eval(Bin(And, Not(A), Not(B)), v) == (!Eval(a, v) && !Eval(b, v));
      }
  }

  lemma {:induction false} ReplaceOrVars(f: Formula)
    requires UsesOnly(f, NotAndOrConst)
    ensures Vars(ReplaceOr(f)) == Vars(f)
  {
    match f
    case Var(_) =>
    case T =>
    case F =>
    case Not(a) => ReplaceOrVars(a);
    case Bin(op, a, b) =>
      ReplaceOrVars(a);
      ReplaceOrVars(b);
      if op == Or {
        var A, B := ReplaceOr(a), ReplaceOr(b);
        assert Vars(Bin(And, Not(A), Not(B))) == Vars(a) + Vars(b);
      }
  }

  lemma {:induction false} ReplaceOrIdentity(f: Formula)
    requires UsesOnly(f, NotAndConst)
    ensures UsesOnly(f, NotAndOrConst) && ReplaceOr(f) == f
  {
    UsesOnlyWeaken(f, NotAndConst, NotAndOrConst);
    match f
    case Var(_) =>
    case T =>
    case F =>
    case Not(a) => ReplaceOrIdentity(a);
    case Bin(_, a, b) => ReplaceOrIdentity(a); ReplaceOrIdentity(b);
  }

  lemma ToNotAndSound(f: Formula, v: string -> bool)
    ensures Eval(ToNotAnd(f), v) == Eval(f, v)
  {
    var g := ToNotAndOr(f);
    UsesOnlyWeaken(g, NotAndOr, NotAndOrConst);
    ReplaceOrSound(g, v);
    ToNotAndOrSound(f, v);
  }

  lemma ToNotAndVars(f: Formula)
    ensures Vars(ToNotAnd(f)) <= Vars(f) + {"p"}
  {
    var g := ToNotAndOr(f);
    UsesOnlyWeaken(g, NotAndOr, NotAndOrConst);
    ReplaceOrVars(g);
    ToNotAndOrVars(f);
  }

  lemma {:induction false} ToNotAndIdentity(f: Formula)
    requires UsesOnly(f, NotAnd)
    ensures ToNotAnd(f) == f
  {
    UsesOnlyWeaken(f, NotAnd, NotAndOr);
    ToNotAndOrIdentity(f);
    UsesOnlyWeaken(f, NotAnd, NotAndConst);
    ReplaceOrIdentity(f);
  }

  lemma ToNotAndIdempotent(f: Formula)
    ensures ToNotAnd(ToNotAnd(f)) == ToNotAnd(f)
  {
    ToNotAndIdentity(ToNotAnd(f));
  }

  // ---------------------------------------------------------------- to_nand

  lemma {:induction false} ToNandSound(f: Formula, v: string -> bool)
    ensures Eval(ToNand(f), v) == Eval(f, v)
    decreases CountOps(f, Hard), CountOps(f, {Implies}), Size(f)
  {
    match f
    case Var(_) =>
    case T =>
    case F =>
    case Not(a) => ToNandSound(a, v);
    case Bin(op, a, b) =>
      match op
      case And => ToNandSound(a, v); ToNandSound(b, v);
      case Or => ToNandSound(a, v); ToNandSound(b, v);
      case Implies =>
        assert CountOps(Bin(Or, Not(a), b), Hard) == CountOps(f, Hard);
        assert CountOps(Bin(Or, Not(a), b), {Implies}) < CountOps(f, {Implies});
        ToNandSound(Bin(Or, Not(a), b), v);
      case Xor =>
        NoOpsOutsideBasis(ToNotAndOr(f), NotAndOr, Hard);
        ToNandSound(ToNotAndOr(f), v);
        ToNotAndOrSound(f, v);
      case Iff =>
        NoOpsOutsideBasis(ToNotAndOr(f), NotAndOr, Hard);
        ToNandSound(ToNotAndOr(f), v);
        ToNotAndOrSound(f, v);
      case Nand => ToNandSound(a, v); ToNandSound(b, v);
      case Nor =>
        assert CountOps(Not(Bin(Or, a, b)), Hard) < CountOps(f, Hard);
        ToNandSound(Not(Bin(Or, a, b)), v);
  }

  lemma {:induction false} ToNandVars(f: Formula)
    ensures Vars(ToNand(f)) <= Vars(f) + {"p"}
    decreases CountOps(f, Hard), CountOps(f, {Implies}), Size(f)
  {
    match f
    case Var(_) =>
    case T =>
    case F =>
    case Not(a) => ToNandVars(a);
    case Bin(op, a, b) =>
      match op
      case And => ToNandVars(a); ToNandVars(b);
      case Or => ToNandVars(a); ToNandVars(b);
      case Implies =>
        assert CountOps(Bin(Or, Not(a), b), Hard) == CountOps(f, Hard);
        assert CountOps(Bin(Or, Not(a), b), {Implies}) < CountOps(f, {Implies});
        ToNandVars(Bin(Or, Not(a), b));
      case Xor =>
        NoOpsOutsideBasis(ToNotAndOr(f), NotAndOr, Hard);
        ToNandVars(ToNotAndOr(f));
        ToNotAndOrVars(f);
      case Iff =>
        NoOpsOutsideBasis(ToNotAndOr(f), NotAndOr, Hard);
        ToNandVars(ToNotAndOr(f));
        ToNotAndOrVars(f);
      case Nand => ToNandVars(a); ToNandVars(b);
      case Nor =>
        assert CountOps(Not(Bin(Or, a, b)), Hard) < CountOps(f, Hard);
        ToNandVars(Not(Bin(Or, a, b)));
  }

  lemma {:induction false} ToNandIdentity(f: Formula)
    requires UsesOnly(f, NandOnly)
    ensures ToNand(f) == f
  {
    match f
    case Var(_) =>
    case Bin(_, a, b) => ToNandIdentity(a); ToNandIdentity(b);
  }

  lemma ToNandIdempotent(f: Formula)
    ensures ToNand(ToNand(f)) == ToNand(f)
  {
    ToNandIdentity(ToNand(f));
  }

  // ---------------------------------------------------------------- to_implies_not

  lemma {:induction false} ToImpliesNotSound(f: Formula, v: string -> bool)
    ensures Eval(ToImpliesNot(f), v) == Eval(f, v)
    decreases CountOps(f, Hard), Size(f)
  {
    match f
    case Var(_) =>
    case T =>
    case F =>
    case Not(a) => ToImpliesNotSound(a, v);
    case Bin(op, a, b) =>
      if op in {Implies, And, Or} {
        ToImpliesNotSound(a, v);
        ToImpliesNotSound(b, v);
        if op == And {
          var left, right := ToImpliesNot(a), ToImpliesNot(b);
          assert Eval(Bin(Implies, left, Not(right)), v) == (Eval(a, v) ==> !Eval(b, v));
        }
      } else {
        NoOpsOutsideBasis(ToNotAndOr(f), NotAndOr, Hard);
        ToImpliesNotSound(ToNotAndOr(f), v);
        ToNotAndOrSound(f, v);
      }
  }

  lemma {:induction false} ToImpliesNotVars(f: Formula)
    ensures Vars(ToImpliesNot(f)) <= Vars(f) + {"p"}
    decreases CountOps(f, Hard), Size(f)
  {
    match f
    case Var(_) =>
    case T =>
    case F =>
    case Not(a) => ToImpliesNotVars(a);
    case Bin(op, a, b) =>
      if op in {Implies, And, Or} {
        ToImpliesNotVars(a);
        ToImpliesNotVars(b);
        if op == And {
          var left, right := ToImpliesNot(a), ToImpliesNot(b);
          assert Vars(Bin(Implies, left, Not(right))) == Vars(left) + Vars(right);
        }
      } else {
        NoOpsOutsideBasis(ToNotAndOr(f), NotAndOr, Hard);
        ToImpliesNotVars(ToNotAndOr(f));
        ToNotAndOrVars(f);
      }
  }

  lemma {:induction false} ToImpliesNotIdentity(f: Formula)
    requires UsesOnly(f, ImpliesNot)
    ensures ToImpliesNot(f) == f
  {
    match f
    case Var(_) =>
    case Not(a) => ToImpliesNotIdentity(a);
    case Bin(_, a, b) => ToImpliesNotIdentity(a); ToImpliesNotIdentity(b);
  }

  lemma ToImpliesNotIdempotent(f: Formula)
    ensures ToImpliesNot(ToImpliesNot(f)) == ToImpliesNot(f)
  {
    ToImpliesNotIdentity(ToImpliesNot(f));
  }

  // ---------------------------------------------------------------- to_implies_false

  lemma {:induction false} ToImpliesFalseSound(f: Formula, v: string -> bool)
    ensures Eval(ToImpliesFalse(f), v) == Eval(f, v)
    decreases CountOps(f, Hard), CountOps(f, {Or}), Size(f)
  {
    match f
    case Var(_) =>
    case T =>
    case F =>
    case Not(a) => ToImpliesFalseSound(a, v);
    case Bin(op, a, b) =>
      if op !in {And, Or, Implies} {
        NoOpsOutsideBasis(ToNotAndOr(f), NotAndOr, Hard);
        ToImpliesFalseSound(ToNotAndOr(f), v);
        ToNotAndOrSound(f, v);
      } else {
        ToImpliesFalseSound(a, v);
        ToImpliesFalseSound(b, v);
        if op == And {
          var left, right := ToImpliesFalse(a), ToImpliesFalse(b);
          assert Eval(Bin(Implies, left, Bin(Implies, right, F)), v) == (Eval(a, v) ==> !Eval(b, v));
        } else if op == Or {
          var left, right := ToImpliesFalse(a), ToImpliesFalse(b);
          NoOpsOutsideBasis(left, ImpliesFalse, Hard);
          NoOpsOutsideBasis(right, ImpliesFalse, Hard);
          NoOpsOutsideBasis(left, ImpliesFalse, {Or});
          NoOpsOutsideBasis(right, ImpliesFalse, {Or});
          var g := Bin(And, Bin(Implies, left, F), Bin(Implies, right, F));
          assert CountOps(Bin(Implies, left, F), Hard) == 0;
          assert CountOps(Bin(Implies, right, F), Hard) == 0;
          assert CountOps(Bin(Implies, left, F), {Or}) == 0;
          assert CountOps(Bin(Implies, right, F), {Or}) == 0;
          assert CountOps(g, Hard) == 0;
          assert CountOps(g, {Or}) == 0 < CountOps(f, {Or});
          ToImpliesFalseSound(g, v);
          assert Eval(g, v) == (!Eval(a, v) && !Eval(b, v));
        }
      }
  }

  lemma {:induction false} ToImpliesFalseVars(f: Formula)
    ensures Vars(ToImpliesFalse(f)) <= Vars(f) + {"p"}
    decreases CountOps(f, Hard), CountOps(f, {Or}), Size(f)
  {
    match f
    case Var(_) =>
    case T =>
    case F =>
    case Not(a) => ToImpliesFalseVars(a);
    case Bin(op, a, b) =>
      if op !in {And, Or, Implies} {
        NoOpsOutsideBasis(ToNotAndOr(f), NotAndOr, Hard);
        ToImpliesFalseVars(ToNotAndOr(f));
        ToNotAndOrVars(f);
      } else {
        ToImpliesFalseVars(a);
        ToImpliesFalseVars(b);
        if op == And {
          var left, right := ToImpliesFalse(a), ToImpliesFalse(b);
          assert Vars(Bin(Implies, right, F)) == Vars(right);
          assert Vars(Bin(Implies, left, Bin(Implies, right, F))) == Vars(left) + Vars(right);
        } else if op == Or {
          var left, right := ToImpliesFalse(a), ToImpliesFalse(b);
          NoOpsOutsideBasis(left, ImpliesFalse, Hard);
          NoOpsOutsideBasis(right, ImpliesFalse, Hard);
          NoOpsOutsideBasis(left, ImpliesFalse, {Or});
          NoOpsOutsideBasis(right, ImpliesFalse, {Or});
          var g := Bin(And, Bin(Implies, left, F), Bin(Implies, right, F));
          assert CountOps(Bin(Implies, left, F), Hard) == 0;
          assert CountOps(Bin(Implies, right, F), Hard) == 0;
          assert CountOps(Bin(Implies, left, F), {Or}) == 0;
          assert CountOps(Bin(Implies, right, F), {Or}) == 0;
          assert CountOps(g, Hard) == 0;
          assert CountOps(g, {Or}) == 0 < CountOps(f, {Or});
          ToImpliesFalseVars(g);
          assert Vars(g) == Vars(left) + Vars(right);
        }
      }
  }

  /** Without `+`, `<->`, `-&` and `-|` the detour through `ToNotAndOr` is never taken,
      and then no variable is added. */
  lemma {:induction false} ToImpliesFalseNoNewVars(f: Formula)
    requires CountOps(f, Hard) == 0
    ensures Vars(ToImpliesFalse(f)) <= Vars(f)
    decreases CountOps(f, {Or}), Size(f)
  {
    match f
    case Var(_) =>
    case T =>
    case F =>
    case Not(a) => ToImpliesFalseNoNewVars(a);
    case Bin(op, a, b) =>
      assert op !in Hard;
      assert CountOps(a, Hard) == 0 && CountOps(b, Hard) == 0;
      ToImpliesFalseNoNewVars(a);
      ToImpliesFalseNoNewVars(b);
      var left, right := ToImpliesFalse(a), ToImpliesFalse(b);
      if op == And {
        assert Vars(Bin(Implies, right, F)) == Vars(right);
        assert Vars(Bin(Implies, left, Bin(Implies, right, F))) == Vars(left) + Vars(right);
      } else if op == Or {
        NoOpsOutsideBasis(left, ImpliesFalse, Hard);
        NoOpsOutsideBasis(right, ImpliesFalse, Hard);
        NoOpsOutsideBasis(left, ImpliesFalse, {Or});
        NoOpsOutsideBasis(right, ImpliesFalse, {Or});
        var g := Bin(And, Bin(Implies, left, F), Bin(Implies, right, F));
        assert CountOps(Bin(Implies, left, F), Hard) == 0;
        assert CountOps(Bin(Implies, right, F), Hard) == 0;
        assert CountOps(Bin(Implies, left, F), {Or}) == 0;
        assert CountOps(Bin(Implies, right, F), {Or}) == 0;
        assert CountOps(g, Hard) == 0;
        assert CountOps(g, {Or}) == 0 < CountOps(f, {Or});
        ToImpliesFalseNoNewVars(g);
        assert Vars(g) == Vars(left) + Vars(right);
      }
  }

  lemma {:induction false} ToImpliesFalseIdentity(f: Formula)
    requires UsesOnly(f, ImpliesFalse)
    ensures ToImpliesFalse(f) == f
  {
    match f
    case Var(_) =>
    case F =>
    case Bin(_, a, b) => ToImpliesFalseIdentity(a); ToImpliesFalseIdentity(b);
  }

  lemma ToImpliesFalseIdempotent(f: Formula)
    ensures ToImpliesFalse(ToImpliesFalse(f)) == ToImpliesFalse(f)
  {
    ToImpliesFalseIdentity(ToImpliesFalse(f));
  }
}
