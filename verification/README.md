# Kconfig engine, image hashing and image padding: a Dafny model

The project models the parts of the build system that decide what goes into a firmware image and
that fingerprint and pad it:

- the tristate expression optimiser of `scripts/config/expr.c` (`Symbols`, `Numerals`, `Expressions`,
  `Canonical`, `Transform`, `Joins`, `Duplicates`), its printer and the expression rules of the parser
  (`PrintParse`, `Grammar`);
- the memoised symbol evaluator, choice groups, user assignment and the dependency check of
  `scripts/config/symbol.c` (`SymbolEquations`, `EvaluationState`, `EvaluationTheory`, `SymbolTable`,
  `Solutions`, `ValueLaws`, `Choices`, `Assignment`, `AssignmentInstances`, `DependencyCheck`, `EvaluationOrder`,
  `Configurations`);
- the menu pass of `scripts/config/menu.c` (`MenuForest`, `Holders`, `Submenus`, `Inheritance`,
  `Menus`) and the walk of `conf_write` over the result (`MenuWalk`);
- the reader and writer of configuration files in `scripts/config/confdata.c` (`DotConfigFormat`,
  `DotConfig`, `DotConfigLaws`);
- the macro expander of `scripts/config/preprocess.c` (`MacroSemantics`, `MacroLaws`, `Macros`,
  `MacroVariables`);
- SHA-256 and MD5 of `scripts/mkhash.c` (`Words`, `Endian`, `Chaining`, `Sha256Standard`,
  `Sha256Constants`, `Sha256Block`, `Sha256Stream`, `Md5Standard`, `Md5Block`, `Md5Stream`, `HashExamples`);
- the alignment loop of `tools/padjffs2/src/padjffs2.c` (`PadImage`, `PadMarkers`).

## How the model is built

**Expressions.** A tristate is 0, 1 or 2. An environment (`Env`) is what evaluation observes of a
configuration: the tristate of every symbol, and the outcome of comparing two symbols, which is computed
from their strings by the rules of `expr_parse_string` and `strcmp`. `WellFormed` environments come from
*settled* configurations: a bool symbol is never `m`, and nothing is `m` while modules are off. Passes
are functions on trees, except `expr_eliminate_dups`, whose two cursors alias one tree: there the tree is
a field of the class `Reducer` and a cursor is a path into it. The counter of rewrites is a field of the
same class, and the methods that compare and join operands count and restore it as the source does.

**Symbols.** A graph of declarations gives every symbol an equation for its visibility, its bounds and its
value (`Equation`); `Solution` is a family of cells that solves all of them, and `Ranked` says that
the dependencies, range bounds included, are acyclic. `ValueLaws` says what a solution gives each symbol in
terms of its declaration alone: minima, maxima and the first default or range whose condition holds. The class `Table` is the evaluator with its flags
and caches. Its methods carry ghost parameters: with `ok` they promise agreement with the solution
of an acyclic graph, without it they promise only that the recursion ends, on any graph.

**Menus.** Entries are numbers, and `list`, `next` and `parent` are link tables. A ghost `Forest` says what
the links represent (`Segment`, `Parents`), so that every rewiring is proved against it. A ghost map `held`
records which symbol took over which entry, so that the final tree can be described by holders.

**Macros.** `Expansion` defines expansion by recursion over the text; the class `Expander` is the
implementation with scanning loops, expansion counters and the recorded environment. `MacroLaws` says what
each form of reference gives, without reference to how it is scanned.

**Printing and files.** The parser is tied to the grammar by parse trees (`Grammar`), and the reader of
configuration files to the shape of the lines (`DotConfigLaws`), so that a printer and a reader that err
together do not pass.

**Hashes.** The standards are written as functions (`Sha256Standard` after FIPS 180-4, `Md5Standard`
after RFC 1321). The implementations work in place on arrays and are proved equal to them. The constants of
SHA-256 are proved from the primes they come from, and the digests of `abc` from the standards.

## Where the code does less than one may expect

Each of these has a lemma with the exact condition or a concrete instance.

- `FOO="0" && FOO!=n` is rewritten to `FOO="0"` although `"0"` also stands for `n`: the rule for two
  constants is right exactly when the constants are not two spellings of one value
  (`Joins.JoinConstantsExact`). `NamesOnly` excludes this from the equivalence of the passes.
- Comparing a negated symbol with `n` or `y` is right exactly when the symbol is not `m`
  (`Transform.NegatedOperandExact`); an automatic submenu can therefore hold a visible entry under an
  invisible prompt when a negated symbol is `m` (`Submenus.ModuleBreaksSuperset`).
- The comment on `expr_eq` promises that chains with the same operands compare equal; it compares how often
  each occurs as well (`Canonical.CountsMatter`), and is exactly equality up to order and grouping
  (`Canonical.ExprEqExact`).
- A number outside its range becomes the text of a bound, which is read in the base of the bound before and in
  that of the symbol after: a decimal symbol with hexadecimal bounds can stay outside (`ValueLaws.BaseBreaksRange`).
  It is within the range exactly when that text is, read in the symbol's base (`ValueLaws.RangedExact`).
- An accepted assignment need not take effect: the new value is read back exactly when the bounds that the
  symbol has under the present user values admit it (`Assignment.AssignmentTakesEffect`,
  `SymbolTable.Table.SetAndRead`). While no choice has lost its user value, that fails exactly when the
  symbol's own dependency is `n` and something selects it (`AssignmentInstances.SelectedUnmet` is an
  instance). Calculating a choice whose visible members lack user values clears the choice's own, and then
  an assignment may be judged by bounds that no longer hold (`AssignmentInstances.ClearedUser`).
- The dependency check follows neither range bounds nor the dependency of every tristate on the modules
  symbol, so cycles through these pass it (`EvaluationOrder.RangeCycleUnchecked`,
  `EvaluationOrder.ModulesCycleUnchecked`); with a cycle through ranges the equations have two solutions. The
  symbols of a graph without choices can be ranked by what they refer to exactly when all of that is declared
  and no symbol needs its own value (`EvaluationOrder.RankedExactly`); a cycle through conditions that never
  hold also prevents a ranking, though its values are not in doubt. Without
  `recursive_is_error` the sweep reports nothing (`DependencyCheck.Checker.CheckAll`).
- Offsets beyond 32 bits are cut by the alignment mask (`PadImage.AlignExact`). The markers stand at the first
  aligned offsets exactly when all these fit in 32 bits or the image has all the alignments already
  (`PadImage.Pad`). Otherwise, from below 2^32 one marker for everything that does not fit stands right behind
  the others (`PadImage.CutOffset` is an instance), and from 2^32 on all markers stand side by side
  (`PadImage.AlignedBeyond` is the case in which that is still right).
- `x := $(x)` reads a value that has just been freed or never was there. An assignment
  does not depend on such a value if its text can be expanded without the variable, if it is not expanded at
  once, or if the variable keeps its value meanwhile (`MacroVariables.Variables.Add`, `MacroVariables.StaleRead`).

## Model
| member | source | states |
|---|---|---|
| `Symbols.EqualsConstant` | scripts/config/expr.c:998-1102 | in a settled configuration a bool or tristate symbol compares equal to a constant exactly when the constant stands for its value, numbers such as `"0"` included |
| `Numerals.StrToLLReads` | scripts/config/symbol.c:107-121 | reading the digits of a number gives the number, or the nearest one that fits in 64 bits |
| `Numerals.IntsCompare` | scripts/config/expr.c:998-1083 | int symbols are ordered as the numbers they are written for |
| `Numerals.HexesCompare` | scripts/config/expr.c:998-1083 | hex symbols are ordered as their numbers, up to the largest unsigned one |
| `Numerals.TextsCompare` | scripts/config/expr.c:1078-1079 | texts are ordered by their first difference, and a beginning comes before the whole |
| `Numerals.StringsCompare` | scripts/config/expr.c:1073-1079 | two string symbols are ordered as texts, whatever numbers they spell |
| `Numerals.ComparisonLaw` | scripts/config/expr.c:1067-1102 | each of the six comparison operators on int symbols holds exactly when it holds of the numbers |
| `Expressions.EliminateYn` | scripts/config/expr.c:316-397 | no operand `y` or `n` is left under a connective, and the tree shrinks whenever there was one |
| `Expressions.EliminateYnPreserves` | scripts/config/expr.c:316-397 | removing constant operands keeps the value |
| `Expressions.CancelFactors` | scripts/config/expr.c:150-219 | one common operand set is factored out: each old expression equals that set combined with its residue |
| `Expressions.ExprEqSound` | scripts/config/expr.c:252-303 | expressions that compare equal have the same value in every grounded environment |
| `Expressions.ExprEqReflexive` | scripts/config/expr.c:252-303 | every expression compares equal to its copy |
| `Expressions.EliminateEqSuperset` | scripts/config/expr.c:221-241 | if the second residue is `y`, the first expression is at most the second in every environment |
| `Canonical.CancelResidues` | scripts/config/expr.c:150-219 | two chains lose exactly the operands they have in common, as often as both have them |
| `Canonical.ExprEqExact` | scripts/config/expr.c:252-303 | expressions without literal operands compare equal if and only if they are equal up to order and grouping of chains, at every level |
| `Canonical.CountsMatter` | scripts/config/expr.c:246-303 | `A && A && B` and `A && B && B` do not compare equal, though the comment says so |
| `Canonical.ResidueExact` | scripts/config/expr.c:221-241 | the second residue is `y` if and only if every operand of the second chain is an operand of the first, as often |
| `Transform.TransformedIsNormal` | scripts/config/expr.c:694-849 | the pass yields negation normal form, without comparisons of bool symbols with `y`, `m` or `n` |
| `Transform.NormalIsFixed` | scripts/config/expr.c:694-849 | the normal forms are exactly the expressions the pass leaves alone |
| `Transform.TransformedIdempotent` | scripts/config/expr.c:694-849 | a second pass changes nothing |
| `Transform.TransformedPreserves` | scripts/config/expr.c:694-849 | the pass keeps the value in every settled configuration; it ends although De Morgan steps rerun it on a larger tree |
| `Transform.TransformedIsNnf` | scripts/config/expr.c:694-849 | however often the pass reruns itself, the result is that of one descent that pushes negations to the leaves |
| `Transform.TransCompareCorrect` | scripts/config/expr.c:922-985 | the comparison with `y` or `n` is right wherever no negation meets `m` |
| `Transform.NegatedOperandExact` | scripts/config/expr.c:922-985 | for a negated symbol it is right if and only if the symbol is not `m` |
| `Joins.OrRuleSound` | scripts/config/expr.c:431-490 | every rule for joining two operands of `\|\|` gives their maximum |
| `Joins.JoinConstantsExact` | scripts/config/expr.c:540-553 | an equality and an inequality with two constants are joined rightly in all settled configurations if and only if the constants are not two spellings of one value |
| `Joins.NumericConstantBreaksJoin` | scripts/config/expr.c:540-553 | `FOO="0" && FOO!=n` is joined to an expression with another meaning |
| `Joins.JoinAndSound` | scripts/config/expr.c:495-587 | every rule for joining two operands of `&&` gives their minimum, numeric constants aside |
| `Joins.JoinSound` | scripts/config/expr.c:431-587 | a join stands for the two operands, is no larger than one of them, and introduces no numeric constants |
| `Joins.JoinsRedundant` | scripts/config/expr.c:431-587 | two operands are joined if and only if they stand in one of the listed patterns, in either order |
| `Duplicates.JoinStep` | scripts/config/expr.c:627-648 | replacing two operands of one spine by their join and the neutral constant keeps the value of the whole tree |
| `Duplicates.CountedLiterals` | scripts/config/expr.c:150-188 | every counted pair makes one more operand of each tree a literal, so nothing is counted exactly when nothing changes |
| `Duplicates.Reducer.CancelCounted` | scripts/config/expr.c:150-188 | the cancelled trees, and the counter grows by the number of pairs replaced |
| `Duplicates.Reducer.EliminateEqual` | scripts/config/expr.c:221-241 | the residues of both trees, with the counts of both rounds |
| `Duplicates.Reducer.ExprEqual` | scripts/config/expr.c:252-303 | the answer of the comparison, and whatever was counted meanwhile the counter is left as it was found |
| `Duplicates.Reducer.JoinOperands` | scripts/config/expr.c:431-587 | the join of the two operands, with the counter untouched; when there is one is stated by `Joins.JoinsRedundant` |
| `Duplicates.JoinRegular` | scripts/config/expr.c:431-587 | a join of operands in normal form over logic symbols is in that form again |
| `Duplicates.QuiescentIsIrredundant` | scripts/config/expr.c:596-651 | no walk can join anything if and only if no two operands of any chain are redundant, by their places in the tree |
| `Duplicates.Reducer.Walk` | scripts/config/expr.c:596-651 | one walk of both cursors keeps value, spine and normal form; it counts nothing, and changes nothing, if and only if no two of the operands can be joined at any level |
| `Duplicates.Reducer.WalkOperands` | scripts/config/expr.c:615-648 | two different operands are compared after the first was reduced by itself; joined if they can be |
| `Duplicates.Reducer.WalkBelow` | scripts/config/expr.c:604-613 | the descent of either cursor through a connective, with both cursors in one tree |
| `Duplicates.Reducer.EliminateDups` | scripts/config/expr.c:664-686 | ends for every tree; keeps the value in every settled configuration, and normal form; never grows the tree; leaves no chain with two redundant operands anywhere, and leaves alone a tree that has none; restores the counter |
| `SymbolTable.Table.StringValue` | scripts/config/symbol.c:746-768 | the string of a calculated symbol is that of the solution |
| `SymbolTable.Table.CalcExpr` | scripts/config/expr.c:1030-1102 | evaluation that computes symbols on the way gives the value in the solution |
| `SymbolTable.Table.FirstHolding` | scripts/config/symbol.c:83-105 | the first entry whose condition holds |
| `SymbolTable.Table.CalcPrompts` | scripts/config/symbol.c:184-199 | the largest of the prompt conditions, each as the solution gives it |
| `SymbolTable.Table.CalcVisibility` | scripts/config/symbol.c:175-236 | visibility and the direct, reverse and implied bounds are those of the solution |
| `SymbolTable.Table.ChoiceDefault` | scripts/config/symbol.c:244-268 | the default of a choice is that of the equations |
| `SymbolTable.Table.CalcMembers` | scripts/config/symbol.c:277-286 | every member's visibility is that of the solution, and the flag holds if and only if all visible members have a user value |
| `SymbolTable.Table.FirstMember` | scripts/config/symbol.c:259-267 | the first visible member, if any |
| `SymbolTable.Table.CalcChoice` | scripts/config/symbol.c:270-300 | the picked member is that of the equations, and the choice keeps its user value if and only if all visible members have one |
| `SymbolTable.Table.ValidateRange` | scripts/config/symbol.c:123-153 | a number outside its range is clamped to the bound that the solution gives |
| `SymbolTable.Table.DefaultValue` | scripts/config/symbol.c:369-382 | the value of the first default whose condition holds, within that condition: the default of the equations, whose meaning `ValueLaws.LogicLaw` states |
| `SymbolTable.Table.LogicValue` | scripts/config/symbol.c:353-390 | the tristate that bounds, user value, default and selection give |
| `SymbolTable.Table.CalcLogic` | scripts/config/symbol.c:350-391 | the value of a bool or tristate symbol is that of the equations |
| `SymbolTable.Table.SelectMember` | scripts/config/symbol.c:413-415 | a choice that is `y` records the picked member of the solution, and its user value is what the members' user values leave of it |
| `SymbolTable.Table.TextValue` | scripts/config/symbol.c:392-408 | the user's text if visible, else the text of the first default that holds |
| `SymbolTable.Table.CalcText` | scripts/config/symbol.c:392-411 | the text of an int, hex or string symbol is that of the equations |
| `SymbolTable.Table.CalcValue` | scripts/config/symbol.c:302-444 | memoised evaluation ends on every graph, cyclic or not; on an acyclic graph, choices included, the symbol gets the state of the solution and nothing above it changes |
| `SymbolTable.Table.SetAllChoiceValues` | scripts/config/confdata.c:1270-1288 | members without a user value get `n`, the choice counts as having one and is to be calculated again, and nothing else changes |
| `SymbolTable.Table.ClearAllValid` | scripts/config/symbol.c:446-455 | after clearing, the caches agree with the solution of the present user values and the modules symbol is known |
| `SymbolTable.Table.CalcInOrder` | scripts/config/symbol.c:302-444 | whatever order symbols of an acyclic graph are asked for in, each has its state in the one solution |
| `SymbolTable.Table.SetTristateValue` | scripts/config/symbol.c:457-510 | for ordinary symbols, choices and choice values: accepted exactly when the value is the present one or within range; the user values of the symbol, and for a choice value of its choice and all visible members, become the assigned ones; all caches are dropped if the value is new; refused assignments change nothing |
| `SymbolTable.Table.SetPick` | scripts/config/symbol.c:491-502 | the choice gets the pick and a user value, every visible member counts as given, and nothing else changes |
| `SymbolTable.Table.SetAndRead` | scripts/config/symbol.c:457-510 | an accepted new value is read back as given if and only if the bounds admit it that the symbol has in the solution for the present user values; if no choice has lost its user value, if and only if it is not so that the symbol's dependency is `n` while it is selected |
| `Solutions.SolutionUnique` | scripts/config/symbol.c:302-444 | on an acyclic graph the value equations have at most one solution |
| `Solutions.SolutionExists` | scripts/config/symbol.c:302-444 | and they have one |
| `ValueLaws.VisibleLaw` | scripts/config/symbol.c:181-201 | in a solution a symbol is as visible as its most visible prompt, with `m` counting as `y` where it cannot be `m` |
| `ValueLaws.BoundsLaw` | scripts/config/symbol.c:208-236 | the direct, reverse and implied bounds are the values of the three dependencies; a missing one is `y` for the direct and `n` for the others |
| `ValueLaws.LogicLaw` | scripts/config/symbol.c:350-391 | the value of a logic symbol: the smaller of user value and visibility, else the smaller of the first holding default and its condition, raised to what implies it within the dependency, then raised to what selects it unless the dependency is `n` |
| `ValueLaws.DefaultLaw` | scripts/config/symbol.c:369-382 | with no user value, implication or selection the symbol has the first holding default within its condition, and `n` without one |
| `ValueLaws.PlainDefault` | scripts/config/symbol.c:369-382 | a symbol with one unconditional constant default has that value |
| `ValueLaws.SelectedLaw` | scripts/config/symbol.c:383-390 | a selected symbol is at least what selects it if its dependency is met, and `n` if not |
| `ValueLaws.ImpliedLaw` | scripts/config/symbol.c:376-381 | an implied symbol without a user value lies between what implies it and its dependency |
| `ValueLaws.UserLaw` | scripts/config/symbol.c:357-366 | a visible symbol that nothing selects has the user value, within its visibility |
| `ValueLaws.TextLaw` | scripts/config/symbol.c:392-411 | an int, hex or string symbol has the user text if visible, else that of the first holding default; a number below or above the first holding range becomes its lower or upper bound |
| `ValueLaws.WithinRangeLaw` | scripts/config/symbol.c:123-153 | the number of an int or hex symbol lies in its range, if the range is not empty and its bounds are in the base of the symbol |
| `ValueLaws.RangedExact` | scripts/config/symbol.c:123-153 | in general it lies in the range if and only if the text of the bound that replaced it does |
| `ValueLaws.BaseBreaksRange` | scripts/config/symbol.c:123-153 | an int symbol with the hex bounds `10` and `20` gets the number 10, below its range of 16 to 32 |
| `Choices.SelectionIsPick` | scripts/config/symbol.c:244-300 | when a choice is `y` its selection is the user's pick if visible, else the first visible default, else the first visible member |
| `Choices.ChoiceExactlyOne` | scripts/config/symbol.c:413-415 | then exactly that member is `y` and all others are `n`, if the members have no defaults of their own |
| `Choices.KeepsExactly` | scripts/config/symbol.c:277-298 | a choice that is `y` keeps its user value if and only if every member that is visible in the solution has one |
| `Assignment.AssignmentTakesEffect` | scripts/config/symbol.c:457-510 | in the solution for the new user value the symbol has the assigned value if and only if the bounds of the solution before admit it, for any value and any state |
| `Assignment.WithinRangeTakesEffect` | scripts/config/symbol.c:457-475 | a value within range is not admitted exactly when the symbol's dependency is `n` while it is selected |
| `Assignment.WithinRangeExact` | scripts/config/symbol.c:457-475 | where no unmet dependency meets a selection, a value is within range if and only if it takes effect and the symbol is visible above what selects it |
| `Assignment.PickTakesEffect` | scripts/config/symbol.c:491-502 | after a choice value is set to `y` in a choice that is `y`, it and no other member is `y` if it is visible, and it is `n` if it is not |
| `Assignment.PickKept` | scripts/config/symbol.c:491-502 | and the choice keeps its user value, if no member has become visible meanwhile |
| `Assignment.IntactUsers` | scripts/config/symbol.c:270-300 | calculation leaves all user values as they are if every calculated choice with a user value keeps it, that is, if its visible members all have one whenever it is `y` |
| `AssignmentInstances.ClearedUser` | scripts/config/symbol.c:270-300 | a choice loses its user value, and an accepted assignment is not read back although the symbol's dependency is `y` and nothing selects it |
| `AssignmentInstances.SelectedUnmet` | scripts/config/symbol.c:383-390 | an accepted assignment to a symbol selected against an unmet dependency is not read back |
| `DependencyCheck.Checker.CheckExpr` | scripts/config/symbol.c:1064-1097 | a symbol reported from an expression lies on a cycle; otherwise all it mentions is numbered |
| `DependencyCheck.Checker.CheckExprs` | scripts/config/symbol.c:1099-1145 | the same for all expressions of a symbol, up to the first report |
| `DependencyCheck.Checker.CheckDeps` | scripts/config/symbol.c:1184-1216 | a reported symbol lies on a cycle of the checked relation; a symbol that passes is numbered above all it depends on |
| `DependencyCheck.Checker.CheckAll` | scripts/config/parser.tab.c:2060-2065 | with `recursive_is_error` the sweep is clean if and only if the checked relation has no cycle, if and only if it can be numbered; without it the sweep is always clean |
| `DependencyCheck.CycleOrNumbering` | scripts/config/symbol.c:1184-1216 | the symbols can be numbered above what they depend on if and only if the checked relation has no cycle |
| `EvaluationOrder.RankedExactly` | scripts/config/symbol.c:302-444 | a graph without choices can be ranked, so that evaluation is proved to give the one solution, if and only if all that its typed symbols refer to is declared and the relation of expressions, range bounds and tristate to modules symbol has no cycle |
| `EvaluationOrder.RangeCycleUnchecked` | scripts/config/symbol.c:1099-1145 | two symbols that bound each other's ranges pass the check though they cannot be ranked, and their equations have two solutions |
| `EvaluationOrder.ModulesCycleUnchecked` | scripts/config/symbol.c:1099-1145 | a modules symbol that depends on a tristate passes the check though the symbols cannot be ranked |
| `Configurations.Evaluate` | scripts/config/symbol.c:302-455 | from a fresh table, calculating the symbols in any order ends, and for an acyclic graph gives each its cell in the one solution that exists |
| `Configurations.CheckAndEvaluate` | scripts/config/parser.tab.c:2059-2067 | for any description without choices, the sweep accepts it exactly when the checked relation has no cycle; then evaluation ends, and gives the one solution if no symbol needs its own value through ranges or the modules symbol either |
| `Submenus.RewriteMMeaning` | scripts/config/menu.c:83-106 | the rewritten condition has the value of the original with `m` bounded by the modules symbol |
| `Submenus.Inherit` | scripts/config/menu.c:331-339 | the new condition is the minimum of the inherited one and the entry's own with `m` rewritten, and in normal form if the inherited one is |
| `Submenus.TransBoolVisible` | scripts/config/expr.c:402-426 | on a normal expression `expr_trans_bool` loses only the difference between `m` and `y` |
| `Submenus.TransBoolProper` | scripts/config/expr.c:402-426 | `expr_trans_bool` keeps normal form over logic symbols |
| `Submenus.TransBoolExact` | scripts/config/expr.c:402-426 | no test of a tristate symbol against `n` is left, and expressions without one are left alone |
| `Submenus.DependsSound` | scripts/config/expr.c:879-906 | an expression that depends on a symbol holds only if the symbol is set |
| `Submenus.DependsExactly` | scripts/config/expr.c:879-906 | an expression depends on a symbol if and only if an operand of its outermost `&&` chain requires the symbol |
| `Submenus.ContainsMentions` | scripts/config/expr.c:851-877 | the search finds a symbol if and only if the expression mentions it |
| `Submenus.TransCompareUnder` | scripts/config/expr.c:922-985 | without any condition on the configuration the comparison with `n` errs on one side only |
| `Submenus.NotNo` | scripts/config/menu.c:435-437 | the normalised test against `n`, without operands that could be joined: the same value, and the same test if it has none |
| `Submenus.NotNoFormMeaning` | scripts/config/menu.c:435-437 | that test never holds wrongly, and holds when it should unless a negated symbol is `m` |
| `Submenus.BelongsUnder` | scripts/config/menu.c:442-471 | an entry put under a symbol can be visible only if the symbol is set, or only if the symbol's prompt is visible; an entry that does not mention the symbol is refused, one that depends on it accepted, and any other by its residue against the prompt |
| `Submenus.PlacedByOperands` | scripts/config/menu.c:442-471 | an entry that only mentions the symbol goes below it if and only if all operands of the prompt condition are among its own |
| `Submenus.ModuleBreaksSuperset` | scripts/config/menu.c:451-471 | an entry is put under a symbol although with a negated symbol at `m` it is visible while the symbol's prompt is not |
| `Menus.Tree.InheritEntry` | scripts/config/menu.c:331-385 | an entry inherits, and each of its properties inherits from it |
| `Menus.Tree.Propagate` | scripts/config/menu.c:317-401 | exactly the children of the entry inherit, each from its parent or from the choice |
| `Inheritance.SpreadProper` | scripts/config/menu.c:317-401 | once dependencies are handed down, every condition of every entry has the form that the test for submenus relies on |
| `Inheritance.SpreadValues` | scripts/config/menu.c:317-401 | once dependencies are handed down, the dependency of every entry is the minimum of its own and that of the entry it was read under, or of the value of its choice; and each property condition likewise |
| `Inheritance.LimitedFromAbove` | scripts/config/menu.c:317-401 | so an entry is limited by every entry above it, up to the nearest choice |
| `Menus.Tree.FinalizeChildren` | scripts/config/menu.c:410-411 | every child is finished once, later siblings may have moved below earlier ones, order kept; entries taken over are rightly placed |
| `Menus.Tree.Dependent` | scripts/config/menu.c:442-471 | the decision on the entry's own condition, in both directions |
| `Menus.Tree.Absorb` | scripts/config/menu.c:435-481 | a first part of the following entries, each rightly placed, becomes the list of the symbol, in order; the first entry that stays was refused; no other link changes |
| `Menus.Tree.Adopt` | scripts/config/menu.c:555-559 | every entry of a list gets the new parent |
| `Menus.Tree.FlattenEntry` | scripts/config/menu.c:554-563 | the list of an entry without a prompt moves behind it, in order |
| `Menus.Tree.Flatten` | scripts/config/menu.c:485-564 | afterwards only prompted entries of the list have children, and every entry is where its holders' prompts put it |
| `Menus.Tree.Finalize` | scripts/config/menu.c:285-564 | order of all entries kept; every child names the entry that holds it; only prompted entries below have children; each entry is finished once; each inherits from the entry it was under; each entry taken over is rightly placed; nothing else changes |
| `Menus.Tree.FinalizeAll` | scripts/config/menu.c:285-564 | the same for the whole tree: same preorder, all entries finished; the dependency of every entry has become the minimum of its own and of what it was read under, a choice limiting by its value, and so have the conditions of its properties; every entry ends up in the list of the first prompted one among its holders, a holder being the entry it was read under or a symbol that rightly took it over |
| `Holders.LiftedUp` | scripts/config/menu.c:554-563 | moving the list of an entry without a prompt behind the entry lifts all of it to the entry's own holder |
| `MenuWalk.Walker.Climb` | scripts/config/confdata.c:989-1002 | leaves entries until one has a sibling that follows, or the root is left |
| `MenuWalk.Walker.Walk` | scripts/config/confdata.c:958-1003 | without a stack, every entry is reached once, in preorder, and left after everything below it |
| `MenuWalk.BracketsOpened` | scripts/config/confdata.c:958-1003 | the order of first visits is the preorder |
| `MenuWalk.FinalizeAndWalk` | scripts/config/confdata.c:958-1003 | however the menu pass rearranges the tree, the walk reaches every entry once, in the order in which they were read |
| `DotConfigFormat.UnescapeInverts` | scripts/config/confdata.c:253-269 | unescaping inverts escaping, whatever follows the closing quote |
| `DotConfigFormat.LineRoundTrip` | scripts/config/confdata.c:693-719 | reading the line of a symbol restores its value |
| `DotConfigFormat.WriteRead` | scripts/config/confdata.c:438-507 | reading a written file restores every value in it and sets nothing else |
| `DotConfig.EscapedRoom` | scripts/config/confdata.c:649-667 | the first pass computes exactly the room the escaped string needs |
| `DotConfig.EscapeStringValue` | scripts/config/confdata.c:649-689 | the second pass fills the buffer exactly with the escaped string and its end |
| `DotConfig.Unescape` | scripts/config/confdata.c:256-268 | the loop that moves the rest of the buffer over each backslash leaves the unescaped string, or reports that no quote closes it |
| `DotConfig.PrintSymbol` | scripts/config/confdata.c:693-719 | the line of the format, through the escaping buffer |
| `DotConfig.Reader.SetSymVal` | scripts/config/confdata.c:226-287 | only the named symbol changes, and as its type demands |
| `DotConfig.Reader.ReadLine` | scripts/config/confdata.c:440-507 | a line sets at most one symbol, and which one and how is what the format says |
| `DotConfig.Reader.Read` | scripts/config/confdata.c:431-507 | the values after all lines, from none |
| `DotConfig.WriteAndRead` | scripts/config/confdata.c:438-507 | writing and reading back restores every value, through the buffers |
| `DotConfigLaws.LineExact` | scripts/config/confdata.c:440-507 | a line sets a symbol to a value if and only if it has the shape `# CONFIG_X is not set` for a bool or tristate, or `CONFIG_X=` and a text that says the value: a first letter, a number, or a quoted string |
| `DotConfigLaws.UnescapedExact` | scripts/config/confdata.c:256-268 | a string is read if and only if the text up to its closing quote spells it, a backslash before any character standing for the character |
| `DotConfigLaws.ValidIntExact` | scripts/config/symbol.c:542-554 | an int symbol takes exactly the decimal numbers without leading zeros, and `-0` |
| `DotConfigLaws.EscapedShape` | scripts/config/confdata.c:669-689 | every character is in the escaped text, in order, with a backslash before each quote and backslash, and there is nothing else |
| `DotConfigLaws.WrittenUnset` | scripts/config/confdata.c:703-709 | `n` is written as `# CONFIG_X is not set` |
| `DotConfigLaws.WrittenString` | scripts/config/confdata.c:711-716 | a string is written in quotes, spelled with no more backslashes than it has quotes and backslashes |
| `DotConfigLaws.WrittenPlain` | scripts/config/confdata.c:716-716 | any other value is written as it is |
| `DotConfigLaws.LinesShape` | scripts/config/confdata.c:438-440 | every character of the file is in one line, in order, and a line ends with the first newline in it |
| `DotConfigLaws.WrittenInOrder` | scripts/config/confdata.c:958-1003 | a written file has one line for each symbol, in their order |
| `DotConfigLaws.LastLineDecides` | scripts/config/confdata.c:438-507 | the last line that sets a symbol decides its value |
| `DotConfigLaws.OtherLinesKeep` | scripts/config/confdata.c:438-507 | a symbol that no line sets keeps its value |
| `MacroSemantics.ExpansionAppend` | scripts/config/preprocess.c:498-540 | text after text whose references are closed is expanded on its own |
| `MacroSemantics.PlainExpansion` | scripts/config/preprocess.c:498-540 | text without references stays as it is |
| `MacroSemantics.FewerOpen` | scripts/config/preprocess.c:251-277 | the expansion counters never change a result, they only make an expansion fail |
| `MacroSemantics.ClosingExact` | scripts/config/preprocess.c:472-485 | the clause ends at the first parenthesis that none inside it opens |
| `MacroSemantics.PartsSeparate` | scripts/config/preprocess.c:368-402 | no part has a comma outside parentheses, and every part but the last closes what it opens |
| `MacroSemantics.PartsJoined` | scripts/config/preprocess.c:368-402 | the parts put together with commas are the clause again |
| `MacroSemantics.PartsFound` | scripts/config/preprocess.c:368-402 | such parts are found again in the clause that they make up |
| `MacroLaws.ArgumentLaw` | scripts/config/preprocess.c:357-366 | `$(k)` is the k-th argument of the call that is being expanded, counted from 1 |
| `MacroLaws.CallByValue` | scripts/config/preprocess.c:404-433 | name and arguments are expanded first, whatever references they hold: references whose parts expand to the same texts give the same |
| `MacroLaws.ReferenceFails` | scripts/config/preprocess.c:404-414 | the first part of a reference that cannot be expanded makes it fail, for the same reason |
| `MacroLaws.TooManyLaw` | scripts/config/preprocess.c:384-402 | a name and fifteen arguments are the most that a reference can have |
| `MacroLaws.CallLaw` | scripts/config/preprocess.c:251-277 | a call of a recursive variable gives its body with every `$(k)` replaced by the k-th argument, plain text kept, and other references by what they give there |
| `MacroLaws.SimpleLaw` | scripts/config/preprocess.c:251-277 | a simple variable gives its text as it is, and hides a built-in function of its name |
| `MacroLaws.RecursionLaw` | scripts/config/preprocess.c:251-277 | a variable that refers to itself without arguments fails, and with arguments beyond the depth allowed |
| `MacroLaws.BuiltinLaw` | scripts/config/preprocess.c:112-224 | what each built-in function gives, and how it fails with too few or too many arguments |
| `MacroLaws.EnvironmentLaw` | scripts/config/preprocess.c:426-433 | any other name gives its value in the environment, and nothing if it has none or is called with arguments |
| `MacroLaws.Instance` | scripts/config/preprocess.c:346-442 | with `f = $(1)-$(2)`, `$(f,a,b)` gives `a-b` |
| `Macros.FindClosing` | scripts/config/preprocess.c:472-485 | the closing parenthesis of the clause |
| `Macros.SplitClause` | scripts/config/preprocess.c:368-402 | the parts between commas outside parentheses; too many fail |
| `Macros.Expander.Lookup` | scripts/config/preprocess.c:239-249 | the first variable of that name |
| `Macros.Expander.EnvExpand` | scripts/config/preprocess.c:64-87 | the environment's value, and it is remembered |
| `Macros.Expander.ExpandParts` | scripts/config/preprocess.c:410-414 | name and arguments from left to right; the first failure ends it |
| `Macros.Expander.ExpandDollar` | scripts/config/preprocess.c:456-491 | what follows a dollar sign, and where the text goes on |
| `Macros.Expander.EvalClause` | scripts/config/preprocess.c:346-442 | an argument, a variable, a function or an environment variable, in that order; what each gives is stated by the laws of `MacroLaws` |
| `Macros.Expander.Apply` | scripts/config/preprocess.c:251-277 | the expansion of a variable; the counter is back unless it failed |
| `Macros.Expander.ExpandString` | scripts/config/preprocess.c:498-555 | ends for every set of variables and every input; the result is the expansion; without an error every counter is as before |
| `MacroVariables.BarredExpansion` | scripts/config/preprocess.c:251-277 | what a variable holds is of no consequence to an expansion in which every use of it would fail |
| `MacroVariables.UnusedExpansion` | scripts/config/preprocess.c:251-277 | an expansion that succeeds without a variable is the same if there is no such variable |
| `MacroVariables.IndependentExpansion` | scripts/config/preprocess.c:308-309 | an expansion that does not consult the variable gives the same whatever the variable holds meanwhile |
| `MacroVariables.Variables.Add` | scripts/config/preprocess.c:279-322 | names stay distinct and all other variables are kept; `=` stores the text, `:=` its expansion, `+=` inherits the flavor and appends; unless the text needs the variable that is being replaced, it is expanded as among the variables before the assignment |
| `MacroVariables.StaleRead` | scripts/config/preprocess.c:286-311 | `x := $(x)` stores whatever the memory of the old value contains |
| `MacroVariables.AppendedReference` | scripts/config/preprocess.c:313-318 | after `+=` on a recursive variable a reference gives the expansions of the former and of the added text with a space between them |
| `PrintParse.Parse` | scripts/config/parser.tab.c:1760-1802 | the loop over the stack computes the run of the parser, which `Grammar.ParsesExactly` ties to the rules |
| `PrintParse.RoundTrip` | scripts/config/expr.c:1104-1228 | printing and parsing gives the expression with its chains grouped to the left, hence the same value |
| `PrintParse.RegroupedPreserves` | scripts/config/expr.c:1104-1228 | grouping chains to the left keeps the value |
| `PrintParse.RegroupedChain` | scripts/config/expr.c:1104-1228 | only the grouping changes: the operands of each chain stay in order |
| `PrintParse.RoundTripStable` | scripts/config/expr.c:1104-1228 | after one round trip nothing changes any more |
| `Grammar.ParsesExactly` | scripts/config/parser.y:499-511 | the parser accepts a token sequence, and builds an expression, if and only if the rules with their precedences derive the sequence by a tree whose actions build that expression |
| `Grammar.Unambiguous` | scripts/config/parser.y:90-94 | with the declared precedences no sequence stands for two expressions |
| `Grammar.PrintedIsDerived` | scripts/config/expr.c:1104-1228 | what is printed is a sentence of the grammar for the expression grouped to the left |
| `Grammar.FewestParentheses` | scripts/config/expr.c:1104-1228 | no sentence for the expression, up to the grouping of chains, has fewer parentheses than the printed one |
| `Sha256Block.ChMaj` | scripts/mkhash.c:450-451 | the cheaper forms are the functions of section 4.1.2 of FIPS 180-4 |
| `Sha256Block.DecodeBlock` | scripts/mkhash.c:437-444 | the first sixteen words of the schedule of section 6.2.2 |
| `Sha256Block.RotatingRound` | scripts/mkhash.c:490-503 | a round on rotating places is a round of section 6.2.2 |
| `Sha256Block.SixteenRounds` | scripts/mkhash.c:515-530 | sixteen rounds bring the registers back to their places |
| `Sha256Block.SixteenWords` | scripts/mkhash.c:534-549 | the next sixteen words of the schedule |
| `Sha256Block.Transform` | scripts/mkhash.c:459-563 | the block function refines section 6.2.2 for every block and state |
| `Sha256Stream.Context.MixAll` | scripts/mkhash.c:649-654 | the complete blocks of a chunk |
| `Sha256Stream.Context.Update` | scripts/mkhash.c:621-658 | the state is that of the longer message, for chunks of every size |
| `Sha256Stream.Context.Pad` | scripts/mkhash.c:573-601 | the state is the hash value of the padded message of section 5.1.1 |
| `Sha256Stream.Context.Final` | scripts/mkhash.c:664-675 | the digest of everything put in |
| `Sha256Stream.WordRoundTrip` | scripts/mkhash.c:98-134 | decoding an encoded word gives the word |
| `Sha256Stream.Hash` | scripts/mkhash.c:715-728 | the digest does not depend on how the message is cut |
| `Sha256Constants.RoundConstants` | scripts/mkhash.c:461-479 | each round constant is the first 32 bits of the fractional part of the cube root of its prime, the primes being counted from the first |
| `Sha256Constants.RoundConstantOf` | scripts/mkhash.c:461-479 | whatever number is the prime of that place, the constant is that of its cube root |
| `Sha256Constants.InitialConstants` | scripts/mkhash.c:609-617 | the initial hash value is that of the square roots of the first eight primes |
| `HashExamples.HashAbcSha256` | scripts/mkhash.c:715-728 | the digest of `abc` is the one in appendix B.1 of FIPS 180-2 |
| `Endian.Encode64Big` | scripts/mkhash.c:98-117 | the counter is encoded as its eight digits to the base 256 |
| `Md5Block.StepIsAuxiliary` | scripts/mkhash.c:151-155 | the cheaper forms are the functions of section 3.4 of RFC 1321 |
| `Md5Block.Body` | scripts/mkhash.c:205-286 | the unrolled steps compute the operations of section 3.4 |
| `Md5Stream.CounterAdds` | scripts/mkhash.c:316-319 | the two counters with their carry count the bytes |
| `Md5Stream.CounterBits` | scripts/mkhash.c:366-374 | together they encode the bits modulo 2^64 |
| `Md5Stream.Context.Blocks` | scripts/mkhash.c:188-297 | the block loop chains the block function |
| `Md5Stream.Context.Update` | scripts/mkhash.c:310-343 | the state is that of the longer message, for chunks of every size |
| `Md5Stream.Context.Pad` | scripts/mkhash.c:351-376 | the state is the hash value of the padded message, over one block or two |
| `Md5Stream.Context.Final` | scripts/mkhash.c:345-396 | the digest of the padded message of sections 3.1 to 3.5 |
| `Md5Stream.Hash` | scripts/mkhash.c:700-713 | the digest does not depend on how the message is cut |
| `HashExamples.HashAbcMd5` | scripts/mkhash.c:700-713 | the digest of `abc` is the one in appendix A.5 of RFC 1321 |
| `PadImage.AlignExact` | tools/padjffs2/src/padjffs2.c:45-45 | the macro gives the first aligned offset if and only if that offset fits in 32 bits |
| `PadImage.Lowest` | tools/padjffs2/src/padjffs2.c:87-91 | the lowest requested alignment |
| `PadImage.Satisfied` | tools/padjffs2/src/padjffs2.c:95-99 | exactly the alignments that the offset has are taken out |
| `PadImage.WriteOnes` | tools/padjffs2/src/padjffs2.c:103-117 | pieces of the buffer add up to the gap |
| `PadImage.Pad` | tools/padjffs2/src/padjffs2.c:79-126 | ends for every request; for every request the markers are whole, do not overlap and all else is 0xff; a marker stands at exactly the first aligned offset for every requested alignment and nowhere else if and only if these offsets fit in 32 bits or the start has all the alignments; where the markers stand otherwise is stated too |
| `PadImage.PlacedExact` | tools/padjffs2/src/padjffs2.c:79-126 | wherever the loop puts its markers, below 2^32 and from there on, they are right exactly under that condition |
| `PadImage.CutStep` | tools/padjffs2/src/padjffs2.c:93-99 | the first offset that does not fit is cut to 0, which ends the loop: the markers so far are those of the alignments that fit |
| `PadImage.CutOffset` | tools/padjffs2/src/padjffs2.c:79-126 | one byte before 2^32 the marker is written unaligned, where the image ends |
| `PadImage.AlignedBeyond` | tools/padjffs2/src/padjffs2.c:79-126 | at 2^32 the computed offset is cut as well, and the marker is nevertheless at the aligned offset |
| `PadImage.LaidMarkers` | tools/padjffs2/src/padjffs2.c:103-125 | every marker is whole and at its offset |
| `PadImage.LaidOnes` | tools/padjffs2/src/padjffs2.c:103-125 | every other added byte is 0xff |
| `PadMarkers.MarkersAreHeaders` | tools/padjffs2/src/padjffs2.c:24-26 | the end-of-file mark is 0xdeadc0de; the two pad markers are one node header in big- and little-endian order, each ending with the CRC-32 of its first eight bytes |

## Left out
- Update in place of trees by `expr_eliminate_yn`, `expr_eliminate_eq`, `expr_transform` and `expr_trans_bool`: these are functions on trees here; only `expr_eliminate_dups`, where cursors alias, keeps the slots.
- The expression kinds `E_LIST`, `E_RANGE` and `E_NONE`, memory management, and warnings.
- The flags `SYMBOL_WRITE` and `SYMBOL_CHANGED`, and which symbols `conf_write` writes for that reason.
- SymbolTable.Table.CalcPrompts: the value of each single prompt is not stored with the prompt; evaluation uses only the largest.
- The order of properties of different kinds within one symbol, which evaluation does not use.
- Assignment.AssignmentTakesEffect: stated for symbols that are neither choices nor choice values, whose new value also depends on the other members; for choice values set to `y` see `Assignment.PickTakesEffect`, and what an assignment to either stores is stated by `SymbolTable.Table.SetTristateValue`.
- Assignment.PickTakesEffect: stated for the solution after the assignment, and for members without defaults of their own.
- EvaluationOrder.RankedExactly: graphs with choices are excluded, because there the source checks a choice and its members as one.
- `sym_check_choice_deps` and the printing of a found cycle.
- Duplicates.Reducer.EliminateDups: the equivalence is stated for expressions without numeric constants against tristate symbols, the case in which `Joins.JoinConstantsExact` shows the rule to be wrong.
- Submenus.BelongsUnder: the guarantee is stated for conditions in normal form over bool and tristate symbols, which `Inheritance.SpreadProper` shows the passes to produce; when an entry neither depends on the symbol nor is refused, the decision is stated for conditions without joinable operands.
- PadImage.Pad: the mask of requested alignments is a set of bit positions, lengths do not overflow their 64 bits, and failed writes are not modelled; from 2^32 on the number of markers is stated only when there is at most one.
- The accumulation of reverse, implied and direct dependencies into other symbols, and the choice-specific parts of `menu_finalize` (types of choice values, warnings, the extra condition on bool members of tristate choices).
- Menus.Tree.InheritEntry: what `select` and `imply` add to the reverse and implied dependencies of other symbols is not stated.
- Menus.Tree.Propagate: the same, for all children.
- Menus.Tree.Flatten: the extra condition on bool members of tristate choices is not stated.
- Menus.Tree.Finalize: the choice-specific parts are not stated.
- Menus.Tree.FinalizeAll: the same, for the whole tree.
- `menu_is_visible` and the headings and comments that `conf_write` prints between the lines.
- DotConfig.Reader.ReadLine: values of choice members also update their choice in the source; lines are free of the null character, and a comment line that is too short for the prefix counts as not having it.
- MacroVariables.Variables.Add: called between the statements of a file, when no variable is being expanded; the environment variables that the expansion uses are not recorded there. That the text is expanded without the variable is sufficient for a result that does not depend on freed memory; it is not shown to be necessary, as a text may discard what it reads.
- `expand_one_token`, and the trimming of command output by `do_shell`; commands, the environment and the current file are parameters.
- Names in `PrintParse` are the symbols themselves: the printer omits the quotes of constants, so a round trip through text is not claimed.
- The LR tables: the parser is the shift/reduce loop with the precedences they encode, without error recovery.
- Clearing the hash contexts after use, hexadecimal output and file handling of `mkhash`; the constants of MD5 are a table; they are not derived from the sine function, only fixed by the digest of `abc`.
- The user interfaces, `conf_write_defconfig`, `conf_write_autoconf`, `sym_set_string_value` and the scripts around them.
