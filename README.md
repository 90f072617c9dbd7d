# Operator-basis conversion of propositional formulas

A model of `propositions/operators.py`, which rewrites a propositional formula into an
equivalent one that uses only a smaller set of operators. There are five converters:

| converter | target basis |
|---|---|
| `to_not_and_or` | `~`, `&`, OR |
| `to_not_and` (with its inner pass `replace_or`) | `~`, `&` |
| `to_nand` | `-&` |
| `to_implies_not` | `->`, `~` |
| `to_implies_false` | `->`, `F` |

Files:

- `syntax.dfy` (module `Syntax`): the formula tree as a datatype
  (`Var | T | F | Not | Bin(op, first, second)` with `op` one of `& | -> + <-> -& -|`),
  the measures `Size` and `CountOps`, the variable set `Vars`, and `UsesOnly(f, b)`,
  which says that every node of `f` is a variable or an operator of the basis `b`.
- `semantics.dfy` (module `Semantics`): `Eval(f, v)` by the usual truth tables, with
  `+` as exclusive or, `<->` as equivalence, `-&` as NAND and NOR as NOR. A valuation
  `v` is a total `string -> bool`, so the variable `p` that the converters introduce always
  has a value.
- `operators.dfy` (module `Operators`): the five converters and `ReplaceOr`, branch for branch
  as in the source. Each `ensures` names the converter's target basis.
- `properties.dfy` (module `Properties`): for each converter, that it keeps the truth value under
  every valuation, that the only variable it may add is `p`, that it leaves a formula already in
  its basis unchanged, and hence that it is idempotent.

Several recursive calls take a rewritten formula that is not a subterm of the input and is often
larger. These are the `+`/`<->` expansions, `to_nand` on `->` and NOR, the detours of
`to_nand`, `to_implies_not` and `to_implies_false` through `to_not_and_or`, and `to_implies_false`
on OR. Termination uses lexicographic measures:

- `ToNotAndOr` and `ToImpliesNot` decrease (number of `+ <-> -& -|` nodes, size).
- `ToNand` decreases (that number, number of `->` nodes, size).
- `ToImpliesFalse` decreases (that number, number of OR nodes, size).

Each measure relies on the basis postcondition of the calls made before it. For example, the
operands of an `<->` have already been converted, so they contain no `+ <-> -& -|` node.

Two details of the code that the model keeps:

- `to_nand` encodes `T` as `p -& (p -& p)` and `F` as that term NANDed with itself.
- `to_not_and_or` expands `+` and `<->` over the already converted operands, then converts the
  expansion again.

## Model

| member | source | states |
|---|---|---|
| Operators.ToNotAndOr | propositions/operators.py:13-42 | the result contains only variables, `~`, `&` and OR; no constant and no other binary operator survives |
| Properties.ToNotAndOrSound | propositions/operators.py:13-40 | under every valuation, the result has the same truth value as the input; in particular `p & ~p` is false and `~(p & ~p)` is true whatever `p` is |
| Properties.ToNotAndOrVars | propositions/operators.py:16-20 | the result's variables are among the input's variables and `p` |
| Properties.ToNotAndOrIdentity | propositions/operators.py:14-28 | a formula built only from variables, `~`, `&` and OR is returned unchanged |
| Properties.ToNotAndOrIdempotent | propositions/operators.py:13-40 | converting twice gives the same formula as converting once |
| Operators.ReplaceOr | propositions/operators.py:49-60 | on input built from variables, constants, `~`, `&` and OR, the result has no OR; if the input has no constant, neither has the result |
| Properties.ReplaceOrSound | propositions/operators.py:49-59 | rewriting each a OR b as `~(~a & ~b)` keeps the truth value under every valuation |
| Properties.ReplaceOrVars | propositions/operators.py:49-59 | the pass keeps exactly the input's variables |
| Properties.ReplaceOrIdentity | propositions/operators.py:50-55 | variables, constants, `~` and `&` nodes are left in place, so an input without OR is returned unchanged |
| Operators.ToNotAnd | propositions/operators.py:46-62 | the result contains only variables, `~` and `&`; the `ValueError` of the inner pass cannot be reached because its input is `to_not_and_or`'s output |
| Properties.ToNotAndSound | propositions/operators.py:46-62 | under every valuation, the result has the same truth value as the input |
| Properties.ToNotAndVars | propositions/operators.py:46-62 | the result's variables are among the input's variables and `p` |
| Properties.ToNotAndIdentity | propositions/operators.py:46-62 | a formula built only from variables, `~` and `&` is returned unchanged |
| Properties.ToNotAndIdempotent | propositions/operators.py:46-62 | converting twice gives the same formula as converting once |
| Operators.ToNand | propositions/operators.py:66-98 | the result contains only variables and `-&`, including where `->`, NOR, `+` and `<->` are rewritten first and converted again |
| Properties.ToNandSound | propositions/operators.py:69-96 | under every valuation, the result has the same truth value as the input; `p -& (p -& p)` is true and its self-NAND false whatever `p` is |
| Properties.ToNandVars | propositions/operators.py:69-74 | the result's variables are among the input's variables and `p` |
| Properties.ToNandIdentity | propositions/operators.py:67-94 | a formula built only from variables and `-&` is returned unchanged |
| Properties.ToNandIdempotent | propositions/operators.py:66-96 | converting twice gives the same formula as converting once |
| Operators.ToImpliesNot | propositions/operators.py:102-123 | the result contains only variables, `->` and `~` |
| Properties.ToImpliesNotSound | propositions/operators.py:105-121 | under every valuation, the result has the same truth value as the input; `p -> p` is true and `~(p -> p)` false whatever `p` is |
| Properties.ToImpliesNotVars | propositions/operators.py:105-109 | the result's variables are among the input's variables and `p` |
| Properties.ToImpliesNotIdentity | propositions/operators.py:103-115 | a formula built only from variables, `->` and `~` is returned unchanged |
| Properties.ToImpliesNotIdempotent | propositions/operators.py:102-121 | converting twice gives the same formula as converting once |
| Operators.ToImpliesFalse | propositions/operators.py:127-152 | the result contains only variables, the constant `F` and `->` |
| Properties.ToImpliesFalseSound | propositions/operators.py:130-150 | under every valuation, the result has the same truth value as the input; `F -> F` is true |
| Properties.ToImpliesFalseVars | propositions/operators.py:137-138 | the result's variables are among the input's variables and `p` |
| Properties.ToImpliesFalseNoNewVars | propositions/operators.py:128-150 | on an input with no `+`, `<->`, `-&` or NOR node, so that the detour via `to_not_and_or` is never taken, the result's variables are among the input's variables: `p` is not added |
| Properties.ToImpliesFalseIdentity | propositions/operators.py:128-142 | a formula built only from variables, `F` and `->` is returned unchanged |
| Properties.ToImpliesFalseIdempotent | propositions/operators.py:127-150 | converting twice gives the same formula as converting once |

## Left out

- The `Formula` class of `propositions/syntax.py` is not part of this model. This covers its string parsing and printing and the rules that classify variable names and operator symbols. Formulas are a datatype, variable names are plain strings, and `is_variable`, `is_constant`, `is_unary` and `is_binary` become constructor tests.
- `propositions/semantics.py` is not part of this model. Its truth tables and tautology checks are replaced by the small recursive `Semantics.Eval`.
- The `raise ValueError()` lines (42, 98, 123, 152) have no counterpart. The operator datatype is closed and every match over it is exhaustive, so no other root exists.
- The `raise ValueError()` of `replace_or` (line 60) becomes the precondition of `Operators.ReplaceOr`. Its only caller, `to_not_and`, always meets that precondition.
- The code always introduces the variable `p`; the model keeps it as a constant, not a parameter. The `...Vars` lemmas state that `p` is the only variable a converter can add. The `...Sound` lemmas show that this never changes a truth value, because each constant encoding holds for either value of `p`.
- Output size and minimality are not modelled. The code makes no claim about either.
