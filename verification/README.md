# The Kconfig engine, the streaming hashes, and two small machines, verified

This project models, in Dafny, the parts of the repository on which the contents of an image
depend, and proves what they are for.

* **The expression optimiser** of `scripts/config/expr.c`. Values are n < m < y, && is the minimum,
  || the maximum, ! is 2 minus the value. The in-place rewriters work on heap slots: a
  `struct expr **` is a slot and a path into its tree. They are proved equal to functions on trees,
  and those functions are proved to keep the value under every assignment in which bool symbols are
  never m. Which joins are exact, and what `expr_eq` decides, is stated as an if-and-only-if.
* **The menu finaliser** of `scripts/config/menu.c`: the re-linking of real `next`/`list`/`parent`
  fields, and the propagation of dependencies into properties, up to the guarantee that a selected
  symbol whose dependencies are n stays n.
* **The cycle check and the memoised evaluator** of `scripts/config/symbol.c`, choices included.
* **The macro preprocessor** (`preprocess.c`), the **expression printer** against the grammar
  (`parser.y`), and the **`.config` writer and reader** (`confdata.c`).
* **MD5 and SHA-256** of `scripts/mkhash.c` against RFC 1321 and FIPS 180-4, including both
  compression functions.
* **The button debouncer** of `gpio-button-hotplug.c` and **the padding loop** of `padjffs2.c`.

## Reading guide

| file | contents |
|---|---|
| Expressions.dfy | trees, values, `expr_eliminate_yn`, `expr_eliminate_eq`, `expr_eq` |
| Equality.dfy | what `expr_eq` decides, exactly |
| Joins.dfy, Slots.dfy, Dups.dfy | `expr_join_or`/`_and`, pointers into trees, `expr_eliminate_dups` |
| Transform.dfy, InPlace.dfy | `expr_transform`, `expr_trans_bool`, `expr_trans_compare`, symbol searches, in-place forms |
| Symbols.dfy, DepCheck.dfy, Choices.dfy, Evaluator.dfy | values and dependencies of symbols, choices and members |
| Values.dfy, Ordering.dfy | the same values and dependencies said without the functions that compute them |
| Forgotten.dfy | evaluating again after choices have forgotten that the user has set them |
| MenuTree.dfy, Propagate.dfy, Finalize.dfy | `menu_finalize`: links, dependencies of one symbol and of a whole tree, selects, submenu decisions |
| MenuWalk.dfy, ConfLine.dfy | `conf_write`'s walk; one line of a configuration file |
| Chars.dfy, Macros.dfy, PrintParse.dfy | macro expansion; printing and parsing expressions |
| Blocks.dfy, Md5Transform.dfy, Md5.dfy, Md5Abc.dfy, Sha256.dfy | block folding, padding, the two hashes, a test vector |
| Debounce.dfy, Padding.dfy | the button and the image padding |

## Where the code differs from its description

* The comment above `expr_eq` (`scripts/config/expr.c:244-251`) calls two && or || expressions equal
  when every operand of one equals some operand of the other. The code pairs operands off one by
  one, so `A && A && B` and `A && B && B` are not found equal (`Equality.RepeatedOperand`); the exact
  relation is `Equality.ExprEqExact`.
* The comment at `scripts/config/expr.c:569` announces `a='m'` for `(a!='m') && (a!='n')`; the code
  returns `a='y'`, which is the right answer and the one modelled (`Joins.ThirdValue`).
* With `sym` = m the && and || cases of `expr_trans_compare` build both halves and then drop them
  (`scripts/config/expr.c:933-952`); `Transform.TransCompare` does the same.
* `(a='b') && (a!='c')` becomes `a='b'` for any two different constants, which is wrong when both
  constants name the same tristate value (n and 0). `Joins.JoinExact` says exactly when.
* `expr_alloc_or` drops a missing operand although a missing condition means y.
  `Propagate.AllocOrExact` says exactly when the result is right.
* A string in `auto.conf` that ends in a carriage return is read back without it
  (`ConfLine.AutoStringRoundTrip`).
* The alignment of `pad_image` is done with a 32-bit mask, so an image is padded as requested only
  when every aligned size is below 4 GiB, or nothing needs padding (`Padding.PaddedExact`).
* The check for recursive dependencies passes over an edge back to a choice while the members of
  that choice are searched (`scripts/config/symbol.c:1162`). So it counts no error on some cyclic
  tables. `Evaluator.RoundaboutPasses` has one, whose equations have two solutions: the database
  does not determine the values. `DepCheck.Checker.CheckAll` gives a family of such tables
  (`Symbols.Excusable`), and the tables on which the check is exact: those where no member depends
  on its choice through other symbols.
* Without `recursive_is_error`, the default, the count of recursive dependencies is always 0: a
  reported symbol is on the search path, and its own search drops the report
  (`DepCheck.Checker.CheckAll`).
* Clearing all valid flags and asking again (`scripts/config/symbol.c:446-455`) does not always give
  the same values: a choice that the user has set to y loses that mark when a visible member has no
  value from the user (`scripts/config/symbol.c:286`), and the next evaluation sees it without.
  `Evaluator.EvaluateTwice` says exactly when the two evaluations agree; in `Forgotten.PickLost` a
  picked member is n the second time.

## Model

| member | source | states |
|---|---|---|
| Expressions.EliminateYnSound | scripts/config/expr.c:305-397 | removing y and n operands keeps the value under every assignment and leaves none of them |
| Expressions.EliminateYnShrinks | scripts/config/expr.c:316-397 | the tree never grows, and strictly shrinks when a neutral operand is there: the termination measure of the duplicate elimination |
| Expressions.CancelSound | scripts/config/expr.c:150-190 | for one common part S, e1 = S op e1' and e2 = S op e2' under every assignment |
| Expressions.ExprEqSound | scripts/config/expr.c:252-303 | expressions found equal have the same value under every assignment |
| Expressions.SupersetSound | scripts/config/expr.c:221-241 | when only y is left of e2, then e1 <= e2 under every assignment, whatever operators stand at the two tops |
| Expressions.ComparesNumbers | scripts/config/expr.c:1084-1101 | where the outcomes are those of comparing numbers, each of the six relations holds for exactly the right numbers |
| Equality.CancelExact | scripts/config/expr.c:142-190 | each side loses exactly the operands it shares with the other, counted with multiplicity |
| Equality.ExprEqExact | scripts/config/expr.c:252-303 | without y and n operands: equal if and only if all levels hold the same multiset of operands, in any order and grouping |
| Equality.SupersetExact | scripts/config/expr.c:192-241 | for any two trees y is left of e2 if and only if e1 is an && tree with all the operands of e2, each at least as often |
| Equality.YesIncluded | scripts/config/expr.c:192-241 | y has no operands to be left: it is included in every tree |
| Equality.RepeatedOperand | scripts/config/expr.c:244-251 | a pair of equal value that contradicts the comment's description of equality |
| Joins.JoinOrSound | scripts/config/expr.c:431-493 | every join of two operands of an \|\| keeps the value |
| Joins.JoinAndSound | scripts/config/expr.c:495-587 | every join of two operands of an && keeps the value unless it equates two spellings of one value |
| Joins.JoinExact | scripts/config/expr.c:431-587 | a join keeps the value under every assignment if and only if it is not such a pair |
| Joins.AliasedPairFails | scripts/config/expr.c:540-553 | for each such pair an assignment under which the value changes |
| Joins.ThirdValue | scripts/config/expr.c:449-473 | two tests of a tristate symbol for two of its values are found to be one test about the third |
| Joins.JoinMade | scripts/config/expr.c:431-587 | which pairs are joined: equal operands, and otherwise exactly the listed forms over one bool or tristate symbol, in either order |
| Dups.Optimizer.EliminateDups1 | scripts/config/expr.c:596-651 | on every tree, a pass over any two parts of a level, also one part with itself: keeps the shape of the level, never grows, counts every join, leaves a neutral operand behind if it joined, and otherwise has compared all pairs; keeps the value unless a constant is a second spelling of y, m or n |
| Dups.Optimizer.EliminateDups | scripts/config/expr.c:664-686 | on every tree, terminates, never grows it, and leaves no two operands of any level outside negations that can be joined; leaves a tree without such operands as it is; keeps the value unless a constant is a second spelling of y, m or n |
| Dups.JoinStep | scripts/config/expr.c:627-645 | writing a joined operand and a neutral one keeps the value of the whole tree exactly where the join is exact, and always plants the operand that makes the next clean-up shrink the tree |
| Dups.Optimizer.CompareOperands | scripts/config/expr.c:613-651 | two different operands, the nested pass included, under the same contract |
| InPlace.EliminateYnAt | scripts/config/expr.c:316-397 | in place, at any pointer into a tree: the tree becomes the simplified one and nothing outside the pointer changes |
| InPlace.CancelAt | scripts/config/expr.c:150-190 | in place on two trees at once, with both results |
| InPlace.EliminateEqInPlace | scripts/config/expr.c:221-241 | both phases and the final clean-up, in place |
| Transform.TransformedIsNnf | scripts/config/expr.c:694-849 | the rewriting that restarts itself on grown trees terminates with the negation normal form defined by one structural pass |
| Transform.TransformedSound | scripts/config/expr.c:694-849 | the value is kept under every assignment in which bool symbols are never m |
| Transform.TransformedNormal | scripts/config/expr.c:694-849 | negations are left only directly above symbols other than y, m, n, and no bool = y/m/n test is left |
| Transform.TransformedIdempotent | scripts/config/expr.c:694-849 | transforming twice changes nothing more |
| Transform.TransformAt | scripts/config/expr.c:694-849 | the in-place rewriting at any pointer equals that transformation |
| Transform.TransformNot | scripts/config/expr.c:757-844 | the same for a negation whose operand has been transformed |
| Transform.TransBoolBelow | scripts/config/expr.c:402-426 | with negations only above symbols: never raises the value, and keeps whether it is n |
| Transform.TransBoolRaises | scripts/config/expr.c:402-426 | under a negation it can raise the value, by example |
| Transform.TransBoolFixed | scripts/config/expr.c:402-426 | nowhere in the result is a tristate symbol tested for != n, and a second pass changes nothing |
| Transform.TransBoolInPlace | scripts/config/expr.c:402-426 | the in-place form, at any pointer |
| Transform.TransCompareReads | scripts/config/expr.c:922-985 | comparing with n, and with y, computes a two-valued reading of the expression, on all inputs with bool or tristate leaves |
| Transform.TransCompareExact | scripts/config/expr.c:922-985 | = and != against n and against y are answered right under every assignment when no symbol that can be m stands under an odd number of negations |
| Transform.TransCompareMod | scripts/config/expr.c:933-952 | an && or \|\| compared with m comes back as it is or negated, so = m is answered right only where the expression is n |
| Transform.NegatedSymbolExact | scripts/config/expr.c:953-954 | !A is compared with n exactly under every assignment if and only if A is a bool |
| Transform.ContainsComplete | scripts/config/expr.c:851-877 | a symbol that is not found cannot influence the value |
| Propagate.ContainsExact | scripts/config/expr.c:851-877 | found if and only if it is among the symbols the dependency search visits |
| Transform.DependsSound | scripts/config/expr.c:879-906 | an expression found to depend on s is n whenever s is |
| Transform.DependsExact | scripts/config/expr.c:879-906 | found exactly when some operand of the && level is s or a test s=y, s=m, s!=n |
| Symbols.SolutionUnique | scripts/config/symbol.c:302-444 | acyclic dependencies leave at most one valuation that satisfies every symbol's equation |
| Symbols.PlainIsSolution | scripts/config/symbol.c:302-444 | the plain recursive valuation satisfies them |
| Symbols.StepLocal | scripts/config/symbol.c:175-444 | the value of a symbol, a choice with its picks or a member depends on nothing but its links |
| Symbols.MembersUnreachable | scripts/config/symbol.c:1147-1182 | without cycles nothing the conditions of a choice or of its members depend on, at any distance, is the choice or a member: giving members their values changes no condition |
| Symbols.RankedAcyclic | scripts/config/symbol.c:1064-1182 | an ordering of the symbols excludes every cycle |
| Symbols.DetourCyclic | scripts/config/symbol.c:1147-1182 | a member that depends on its choice through other symbols closes a cycle |
| Symbols.HardCyclicCyclic | scripts/config/symbol.c:1147-1182 | a cycle that enters choices through their members only is a cycle |
| Ordering.OrderableAcyclic | scripts/config/symbol.c:1099-1182 | a table is acyclic when some ranking puts every symbol above those that occur in its direct, reverse and implied dependency, in the conditions of its prompts and defaults, and in what its defaults stand for, a choice and its members as one |
| Ordering.RankedOrderable | scripts/config/symbol.c:1099-1182 | and every ranking of the links is such a ranking |
| Ordering.SelectsSameCycles | scripts/config/symbol.c:1125-1127 | two tables that differ only in what symbols select and imply have the same cycles |
| DepCheck.CloseCycle | scripts/config/symbol.c:1189-1193 | meeting a symbol that is on the search path means there is a cycle |
| DepCheck.TopologicalRanked | scripts/config/symbol.c:1184-1216 | the order in which symbols are left without error ranks every symbol above its dependencies |
| DepCheck.Checker.CheckExprDeps | scripts/config/symbol.c:1064-1096 | follows all symbols of an expression, in order, stopping at the first report |
| DepCheck.Checker.CheckSymDeps | scripts/config/symbol.c:1099-1145 | follows direct, reverse and implied dependencies, the property conditions, and the default values of symbols that are no choices |
| DepCheck.Checker.CheckChoiceDeps | scripts/config/symbol.c:1147-1182 | a choice and its members as one search: everything they mention is left behind when nothing was found or passed over, flags and path are restored, and a member that is reported stands for its choice |
| DepCheck.Checker.CheckDeps | scripts/config/symbol.c:1184-1216 | one search: restores the path, reports only real cycles; with recursive_is_error reports every error found, without it only symbols on the caller's path |
| DepCheck.Checker.CheckAll | scripts/config/parser.tab.c:1963-1969 | the acyclic tables are those whose symbols can be put in an order; with recursive_is_error: acyclic if and only if no error is counted and no member depends on its choice through other symbols; a cycle that enters choices through their members only is always counted; when all cycles pass an edge back to a choice that does not depend on itself but for its members and is entered before any such edge is met, none is counted; without the flag, no error is ever counted; so, without such members, the count tells cycles if and only if the flag is set or there are none |
| DepCheck.PassedOver | scripts/config/symbol.c:1156-1176 | an edge back to a choice on the path that has lost its flag, from deeper down than its members, closes a path from that choice through one of its members back to it |
| DepCheck.NoBackEdge | scripts/config/symbol.c:1189-1193 | in a table whose cycles are all excused the search never meets a flagged symbol again |
| Evaluator.Cache.EvalExpr | scripts/config/expr.c:1030-1102 | with the cache in any good state, the value of an expression in the one solution |
| Evaluator.Cache.DefaultProperty | scripts/config/symbol.c:83-93 | the first default whose condition is not n |
| Evaluator.Cache.CalcPrompts | scripts/config/symbol.c:175-206 | the visibility that prompts give, also for members, and whenever a member is visible its choice has a value by then |
| Evaluator.Cache.CalcVisibility | scripts/config/symbol.c:175-236 | visibility, direct, reverse and implied dependency of the symbol in the one solution |
| Evaluator.Cache.CalcMembers | scripts/config/symbol.c:276-286 | the visible field of every member is what it is while the choice is y, no later evaluation disturbs it, and the user's mark of the choice survives exactly when every visible member has a value from the user |
| Evaluator.Cache.ChoiceDefault | scripts/config/symbol.c:244-268 | the first active default whose member is visible, else the first visible member, else none |
| Evaluator.Cache.CalcChoice | scripts/config/symbol.c:270-300 | the pick prescribed for the members' visibility under the assumption that the choice is y |
| Evaluator.Cache.CalcOther | scripts/config/symbol.c:302-444 | value, limits and user mark of a symbol or choice in the one solution |
| Evaluator.Cache.CalcMember | scripts/config/symbol.c:350-391 | the value of a member in the one solution, although its visibility may be computed a second time in the middle by its choice |
| Evaluator.Cache.CalcValue | scripts/config/symbol.c:302-444 | never meets a symbol still being computed but a choice that is y so far, leaves everything that was valid untouched, and stores the value of the one solution |
| Values.OrdinaryValue | scripts/config/symbol.c:350-391 | a bool or tristate, in every solution, from the largest condition of its prompts, its dependencies and its first active default: n if selected against a direct dependency that is n; else the user's value limited by the prompts, or the default, raised to imply and then limited by the direct dependency; then raised to the reverse dependency; m as y for what is effectively a bool |
| Values.GivenExists | scripts/config/symbol.c:175-236 | such conditions can always be given |
| Values.UserDecides | scripts/config/symbol.c:357-362 | with a free prompt and nothing that selects it a symbol has the value the user gave it |
| Values.ChoiceComesTo | scripts/config/symbol.c:350-391 | a choice by the same rule, without default and imply; n after all if that is y and no member is visible |
| Values.MemberVisible | scripts/config/symbol.c:175-206 | a member can be seen as far as its largest prompt condition, but an m does not count for a tristate member of a choice that is y |
| Values.MemberComesTo | scripts/config/symbol.c:350-391 | a member that can be seen entirely is y if and only if it is picked; any other follows the rule without dependencies |
| Values.PickedMember | scripts/config/symbol.c:244-300 | the pick: the user's if visible, else that of the first active default whose member is visible, else the first visible member |
| Values.TextComesTo | scripts/config/symbol.c:394-410 | the text of a string, int or hex: the user's if a prompt is visible, else that of the symbol or word its first active default names |
| Values.UnknownComesTo | scripts/config/symbol.c:333-336 | a symbol of unknown type stands for its name |
| Values.ComparedTexts | scripts/config/symbol.c:746-768 | what a comparison sees: the letter of a bool or tristate, n for m without modules, and otherwise the text |
| Evaluator.Cache.Recalculate | scripts/config/symbol.c:446-455 | after clearing all valid flags, any order of requests gives the values of the one solution for the database without the user's value of the choices that have forgotten it, and the choices that forget it this time |
| Evaluator.EvaluateTwice | scripts/config/symbol.c:270-455 | two evaluations of all symbols, each with the values of the only solution, give the same values if and only if the reverse dependency of every choice that has forgotten the user is y |
| Forgotten.StableExactly | scripts/config/symbol.c:286-391 | after any of the choices that forget the user have done so, the values satisfy all equations if and only if the reverse dependency of each of these is y |
| Forgotten.ForgottenStep | scripts/config/symbol.c:350-391 | the equation of one such choice still holds if and only if its reverse dependency is y |
| Forgotten.SameStep | scripts/config/symbol.c:302-444 | the equation of every symbol that keeps the user's value is the same, whatever the values |
| Forgotten.PickLost | scripts/config/symbol.c:270-391 | a tristate choice set to y with one member without a value: first the member is y, then the choice is m and the member n |
| Evaluator.CheckThenCalculate | scripts/config/parser.tab.c:1962-1969 | choices included: no error if and only if acyclic; then all values are those of the plain recursive valuation and of every solution |
| Choices.GuardAttached | scripts/config/menu.c:319-324 | a condition that never exceeds the choice is n or mentions the choice |
| Choices.VisibleWhenY | scripts/config/symbol.c:175-206 | in a choice that is y a member is visible entirely or not at all, and exactly when a prompt of it is y, or m on a bool |
| Choices.AssumptionHolds | scripts/config/symbol.c:270-300 | if the choice is y in the end, members look the same to it as they do to themselves |
| Choices.PickSpec | scripts/config/symbol.c:244-300 | a pick is made exactly when some member is visible; it is a visible member, and the user's if that is visible |
| Choices.ExactlyOne | scripts/config/symbol.c:244-391 | a choice that is y has exactly one member that is y, a visible one, the user's pick whenever that is visible; in one that is m no member is y; in one that is n all are n |
| Choices.FallsExactly | scripts/config/symbol.c:294-298 | a choice that comes to y falls to n exactly when no member is visible while it is y |
| Choices.TwoOutcomes | scripts/config/symbol.c:1147-1182 | a table in which a member depends on its choice through another symbol, and two valuations that satisfy all its equations |
| Choices.RoundaboutExcused | scripts/config/symbol.c:1156-1176 | the cycles of that table are all excused |
| Evaluator.RoundaboutPasses | scripts/config/symbol.c:1147-1182 | on that cyclic table the check counts no error with recursive_is_error set |
| MenuTree.Finalize | scripts/config/menu.c:285-532 | for every decision which siblings to absorb: same nodes, same preorder, none twice, every parent field right, terminates, and no node without a prompt keeps children |
| MenuTree.FinalizeChildren | scripts/config/menu.c:410-411 | the loop over children that re-link the chain it walks |
| MenuTree.AbsorbSiblings | scripts/config/menu.c:439-481 | the automatic submenu: the absorbed siblings become the children, in order |
| MenuTree.TakeSiblings | scripts/config/menu.c:477-481 | the cut: three assignments turn the absorbed prefix into the list of children |
| MenuTree.Flatten | scripts/config/menu.c:485-563 | afterwards every child with children of its own has a prompt |
| MenuTree.Splice | scripts/config/menu.c:554-562 | the children of a promptless node follow it, with their new parent |
| MenuTree.Reparent | scripts/config/menu.c:555-559 | every node of the chain gets the new parent, and its last node is found |
| Propagate.AllocAndExact | scripts/config/expr.c:52-57 | dropping a missing operand of && is right |
| Propagate.AllocOrExact | scripts/config/expr.c:59-64 | dropping a missing operand of \|\| is right if and only if what is left is y |
| Propagate.MergedExact | scripts/config/menu.c:483 | over all definitions of a symbol: its direct dependency is the largest of theirs if and only if none of them is missing, all are missing, or a given one is y |
| Propagate.RewriteMSound | scripts/config/menu.c:81-105 | after the rewriting a bare m counts as n exactly when modules are off |
| Propagate.BareM | scripts/config/menu.c:81-105 | in particular m itself |
| Propagate.Narrow | scripts/config/menu.c:335-338 | the new dependency has the value of the outer one && the entry's own, under every assignment |
| Propagate.NarrowProperty | scripts/config/menu.c:379-386 | a property condition never exceeds the entry's dependency, is n exactly when their conjunction is, and equals it for a tristate symbol |
| Propagate.FinalizeSymbol | scripts/config/menu.c:330-386 | for the only definition of a symbol below any outer dependency: the value of its direct dependency, every condition narrowed as by NarrowProperty, and every prompt and default guarded by the direct dependency |
| Propagate.SelectRespectsDependencies | scripts/config/symbol.c:350-391 | direct dependency n makes the symbol n even when selected; otherwise it is at least its reverse dependency; a bool is never m |
| Propagate.CollectedIsStrongest | scripts/config/menu.c:391-399 | the collected reverse dependency asks for the most that any select asks for, and no more |
| Propagate.SelectIsHonoured | scripts/config/menu.c:391-394 | a symbol whose direct dependency is not n is at least selector && condition, for every select collected into its reverse dependency |
| Propagate.FinalizedMember | scripts/config/menu.c:319-324 | conditions narrowed with the choice as outer dependency never exceed the choice |
| Finalize.Finalizer.HandOutAll | scripts/config/menu.c:388-399 | the loop over the properties gives every selected or implied symbol exactly the demands aimed at it, in order |
| Finalize.Finalizer.FinalizeLevel | scripts/config/menu.c:329-412 | a whole level of the menu tree and everything below it, in the order of the source: nodes first, then their children |
| Finalize.FinalizeTree | scripts/config/menu.c:285-591 | from the root: every entry has as direct dependency the conjunction of all dependencies around it, all conditions are guarded, and reverse and implied dependencies are those collected from the select and imply properties of the result, and from the prompt && m of every choice that is not optional |
| Finalize.EntryDone | scripts/config/menu.c:329-386 | the same for one entry at any depth |
| Finalize.PathAround | scripts/config/menu.c:285-345 | for every way through menus, ifs and choices to an entry, its dependency has the smallest value on the way, counted from the innermost choice, with a bare m as n without modules |
| Finalize.PromptIsLast | scripts/config/menu.c:587 | the prompt of a choice is the one given last |
| Finalize.DemandsExactly | scripts/config/menu.c:388-399 | in a finalized tree a reverse or implied dependency asks for exactly the largest selector && condition over all selects or implies of the symbol in the tree, and prompt && m of a choice that is not optional |
| Finalize.TreeRespectsDependencies | scripts/config/symbol.c:350-391 | in a finalized tree an entry is n when the dependencies around it are n, even if selected; otherwise at least selector && condition for every select property in the tree; a bool is never m |
| Finalize.TreeGuardsMembers | scripts/config/menu.c:319-345 | in a finalized tree the members of every choice, listed in it directly or below if blocks of any depth, never exceed it: what the evaluation asks of members holds for the whole table |
| Finalize.MandatoryChoice | scripts/config/menu.c:578-591 | a choice that is not optional and whose prompt is not n is n only when no member is visible while it is y, and exactly then if it is effectively a bool |
| Propagate.SolutionConsistent | scripts/config/symbol.c:302-444 | computed values form an assignment of the kind the optimiser is proved for |
| Propagate.Presence | scripts/config/menu.c:435-437 | the simplified test that a condition is not n: same value, nothing left to join, and the test itself if there was nothing to join |
| Propagate.BelongsInSubmenu | scripts/config/menu.c:441-470 | an entry goes into the submenu if and only if it mentions the symbol, and depends on it outright or its test is an && tree with all operands of the prompt's test, which is always so for a prompt without condition; it is then n when the symbol is, or can be present only while the symbol's prompt is |
| MenuWalk.ConfWrite | scripts/config/confdata.c:958-1003 | the walk without a stack terminates and writes what the recursive traversal writes |
| MenuWalk.RenderOnce | scripts/config/confdata.c:969-981 | every symbol with something to write gets exactly one line, and no other does |
| MenuWalk.RenderHeaders | scripts/config/confdata.c:960-968 | the headers are those of the visible nodes without a symbol, in preorder |
| MenuWalk.RenderNested | scripts/config/confdata.c:989-994 | menu headers and their end lines nest properly, at every subtree |
| MenuWalk.RenderPlaces | scripts/config/confdata.c:958-1003 | every header and line stands where it belongs: in the order of the tree, a symbol at its first node, inside exactly the visible menus around its node |
| MenuWalk.RenderSpaced | scripts/config/confdata.c:976-993 | a blank line stands exactly between the end of a menu and the line of a symbol behind it |
| ConfLine.EscapeStringValue | scripts/config/confdata.c:649-689 | the size counted in the first pass is the length of what the second pass writes plus one |
| ConfLine.UnescapeEscaped | scripts/config/confdata.c:254-266 | unescaping what was escaped gives the text back, and ignores what follows the quote |
| ConfLine.UnescapeInPlace | scripts/config/confdata.c:258-266 | the loop that moves the rest of the string over each backslash computes that unescaping |
| ConfLine.ConfSetSymVal | scripts/config/confdata.c:226-287 | what a value does to a symbol of each type, including refusal and silence |
| ConfLine.SwitchRoundTrip | scripts/config/confdata.c:693-724 | with every way of writing n that writes a line: every tristate value, and exactly n and y for a bool, is read back from its line |
| ConfLine.PrintsNothing | scripts/config/confdata.c:693-724 | which symbols get no line |
| ConfLine.SwitchExactly | scripts/config/confdata.c:226-252 | a line for a bool or tristate stores y, n, or for a tristate m, exactly when its text begins with that letter, and is refused otherwise, the empty text included |
| ConfLine.StringExactly | scripts/config/confdata.c:253-271 | a string in .config is passed over exactly when it does not begin with a quote, refused exactly when no quote ends it, and stored otherwise |
| ConfLine.UnescapedExact | scripts/config/confdata.c:258-266 | a quote ends the text exactly when the backslashes in front of it form pairs |
| ConfLine.StringSpelled | scripts/config/confdata.c:253-266 | however a text is spelled, with any characters escaped besides quotes and backslashes, it is that text that is stored |
| ConfLine.StringRoundTrip | scripts/config/confdata.c:693-724 | every text without a newline is read back from .config |
| ConfLine.AutoStringRoundTrip | scripts/config/confdata.c:726-729 | a text without a newline is read back from auto.conf if and only if it does not end in a carriage return |
| ConfLine.NumberRoundTrip | scripts/config/confdata.c:270-283 | an int or hex text is stored as written if and only if it is valid, and refused otherwise |
| ConfLine.ValidStaysOnLine | scripts/config/symbol.c:535-576 | a valid int or hex text has no line break |
| ConfLine.IntExactly | scripts/config/symbol.c:542-553 | the valid ints are the decimal numbers without leading zeros, and -0 |
| ConfLine.HexExactly | scripts/config/symbol.c:554-562 | the valid hex values are hexadecimal digits with or without 0x |
| ConfLine.ReadAssignment | scripts/config/confdata.c:472-508 | a line NAME=text is cut at the first = and at the line end |
| ConfLine.ReadUnset | scripts/config/confdata.c:441-471 | the comment for a symbol that is not set is read as n |
| ConfLine.ReadComment | scripts/config/confdata.c:441-471 | such a comment sets a bool or tristate to n, in auto.conf an unknown symbol too, and leaves any other symbol alone |
| ConfLine.LinesRead | scripts/config/confdata.c:439-508 | assignments and such comments are all the lines that are read |
| Macros.SplitJoins | scripts/config/preprocess.c:384-402 | joining the pieces with commas gives the clause back |
| Macros.PiecesBalanced | scripts/config/preprocess.c:384-402 | every piece of a balanced clause is balanced |
| Macros.PiecesWhole | scripts/config/preprocess.c:384-402 | no piece has another comma outside parentheses |
| Macros.ClosingExact | scripts/config/preprocess.c:472-484 | the clause ends at the one ')' that leaves it balanced |
| Macros.ClosingExists | scripts/config/preprocess.c:472-484 | inside balanced text every clause is closed |
| Macros.ExpandTerminated | scripts/config/preprocess.c:456-540 | with balanced input and balanced recursive variables no reference is ever reported as unterminated, at any depth |
| Macros.ExpandAnywhere | scripts/config/preprocess.c:251-277 | the expansion counts only reject: what expands inside other expansions gives the same text outside them |
| Macros.PlainText | scripts/config/preprocess.c:498-540 | text without $ stands for itself |
| Macros.SelfReferenceRejected | scripts/config/preprocess.c:251-277 | a recursive variable that mentions itself without arguments never expands |
| Macros.ArgumentExpands | scripts/config/preprocess.c:358-366 | in the value of a recursive variable $(k) stands for argument number k of the call |
| Macros.CallExpands | scripts/config/preprocess.c:346-442 | so a call comes to the variable's value with that argument in place, in any text |
| Macros.NoSuchArgument | scripts/config/preprocess.c:358-366 | a number beyond the arguments is the name of a variable |
| Macros.UnsignedExact | scripts/config/preprocess.c:363 | what a number in a clause comes to: blanks, a sign and digits, with wrap-around and saturation |
| Macros.NumberForm | scripts/config/preprocess.c:363 | nothing else is a number |
| Macros.CallWithArguments | scripts/config/preprocess.c:384-402 | a call may have 15 plain arguments, which it gets as they are |
| Macros.CallOfPieces | scripts/config/preprocess.c:384-420 | name and arguments are expanded before the call, whatever they contain |
| Macros.SplitOthers | scripts/config/preprocess.c:384-402 | splitting pieces that were joined with commas gives them back |
| Macros.VariableFirst | scripts/config/preprocess.c:416-419 | a variable hides a function and an environment variable of its name |
| Macros.FunctionSecond | scripts/config/preprocess.c:421-424 | a function hides an environment variable, and is called with exactly as many arguments as it takes |
| Macros.EnvironmentLast | scripts/config/preprocess.c:426-433 | the environment is asked last and only without arguments; what is not found comes to nothing |
| Macros.DollarAlone | scripts/config/preprocess.c:462-470 | a $ without a parenthesis stands for itself |
| Macros.StopsThere | scripts/config/preprocess.c:498-540 | expanding a token ends at the first character that ends it |
| Macros.ExpandAppend | scripts/config/preprocess.c:498-540 | text behind text is expanded behind it |
| Macros.AppendExpands | scripts/config/preprocess.c:279-325 | after X = a or X := a, and X += b, a call of X comes to what a comes to, a blank, and what b comes to |
| Macros.AssignedKeeps | scripts/config/preprocess.c:279-325 | an assignment keeps names distinct, and place, value and flavor of all other variables |
| Macros.SimpleIsFixed | scripts/config/preprocess.c:313-325 | a simple variable keeps the text its definition expanded to when other variables change |
| Macros.Preprocessor.VariableLookup | scripts/config/preprocess.c:239-249 | the first variable of that name |
| Macros.Preprocessor.VariableExpand | scripts/config/preprocess.c:251-277 | equals the recursive definition, and restores every expansion count unless it fails |
| Macros.Preprocessor.EvalClause | scripts/config/preprocess.c:346-442 | the same for a clause: positional argument, split, expansion of all pieces, variable, function, environment, in that order |
| Macros.Preprocessor.ExpandDollar | scripts/config/preprocess.c:456-491 | the same for what follows a $, and how far it reaches |
| Macros.Preprocessor.ExpandString | scripts/config/preprocess.c:498-540 | the same for a whole text or token; terminates on every variable table |
| Macros.Preprocessor.VariableAdd | scripts/config/preprocess.c:279-325 | the table after =, := or +=, or the error |
| PrintParse.CompareType | scripts/config/expr.c:1104-1136 | the fall-through switch decides exactly by binding strength |
| PrintParse.Parse | scripts/config/parser.tab.c:1657-1715 | the stack machine with its loop equals the recursive run |
| PrintParse.ReadInner | scripts/config/parser.tab.c:1665-1707 | in every context that binds less tightly, reading an expression printed without parentheses leaves its tree on the stack |
| PrintParse.ReadChain | scripts/config/parser.tab.c:1701-1707 | a chain of one operator is regrouped to the left while it is read |
| PrintParse.ParsePrint | scripts/config/expr.c:1138-1228 | reading back what was printed gives the left-leaning tree |
| PrintParse.RoundTrip | scripts/config/expr.c:1138-1228 | it keeps the value under every assignment, is the same tree if and only if that leans to the left already, and prints the same again |
| PrintParse.PrintInjective | scripts/config/expr.c:1138-1228 | two expressions print alike if and only if they differ in grouping only |
| PrintParse.RoundTripOpt | scripts/config/expr.c:1142-1145 | a missing expression prints as y and is read back as y |
| PrintParse.PrintSparing | scripts/config/expr.c:1104-1228 | parentheses stand around an \|\| below &&, and around either below !, and nowhere else |
| Blocks.FoldAppend | scripts/mkhash.c:621-658 | compressing whole blocks in two goes is compressing them in one |
| Md5Transform.FastForms | scripts/mkhash.c:151-155 | the forms without AND-NOT are the functions of RFC 1321 |
| Md5Transform.StepIsOperation | scripts/mkhash.c:160-163 | a step is the operation of section 3.4 with the registers renamed |
| Md5Transform.Transform | scripts/mkhash.c:205-289 | the 64 unrolled steps are the four rounds of section 3.4 of RFC 1321 |
| Md5.CountsAdd | scripts/mkhash.c:316-319 | hi * 2^29 + lo stays the byte count modulo 2^61 across all carries and any chunk size |
| Md5.LengthBytes | scripts/mkhash.c:366-374 | the two counter words are the 64-bit bit count, low-order word first |
| Md5.Context.Hash | scripts/mkhash.c:310-343 | any chunk: the context stands for the message so far followed by the chunk |
| Md5.Context.End | scripts/mkhash.c:345-396 | the digest of the whole message, padded as in sections 3.1 and 3.2 of RFC 1321 |
| Md5.HashChunks | scripts/mkhash.c:700-713 | every way of cutting the input gives the digest of the concatenation |
| Md5Abc.AbcDigest | scripts/mkhash.c:151-396 | the digest of abc is the one in appendix A.5 of RFC 1321 |
| Sha256.FastForms | scripts/mkhash.c:450-451 | the cheaper Ch and Maj are those of FIPS 180-4 |
| Sha256.MacroS0Form | scripts/mkhash.c:452-487 | S0 is the function of section 4.1.2, and likewise the three other macros |
| Sha256.ConstantsFromPrimes | scripts/mkhash.c:461-479 | each round constant is made of the first 32 bits of the fraction of the cube root of its prime, as in section 4.2.2 |
| Sha256.InitialFromPrimes | scripts/mkhash.c:602-618 | the initial values are made of those of the square roots of the first eight primes, as in section 5.3.3 |
| Sha256.Be32DecWord | scripts/mkhash.c:119-133 | decoding two half words is reading a word high-order byte first |
| Sha256.BigRoundTrip | scripts/mkhash.c:83-133 | encoding and decoding a word undo each other |
| Sha256.RotatedRound | scripts/mkhash.c:490-501 | with rotating register numbers, one step is one round of section 6.2.2 |
| Sha256.Transform | scripts/mkhash.c:458-566 | the compression function of section 6.2.2 of FIPS 180-4 |
| Sha256.Context.Update | scripts/mkhash.c:621-658 | any chunk: the context stands for the message so far followed by the chunk |
| Sha256.Context.Pad | scripts/mkhash.c:573-599 | the last blocks are those of the padded message |
| Sha256.Context.Final | scripts/mkhash.c:664-675 | the digest of the whole message |
| Sha256.Hash | scripts/mkhash.c:715-728 | every way of cutting the input gives the digest of the concatenation |
| Sha256.StandardPadding | scripts/mkhash.c:573-599 | below 2^61 bytes the padding is that of section 5.1.1 of FIPS 180-4, with the least number of zeros |
| Debounce.Button.Handle | package/kernel/gpio-button-hotplug/src/gpio-button-hotplug.c:253-297 | over every sequence of polls: an event exactly when this reading and the threshold readings before it all differ from the state last reported |
| Debounce.Poll | package/kernel/gpio-button-hotplug/src/gpio-button-hotplug.c:318-331 | every button of a device sees exactly its own reading |
| Debounce.CountDecides | package/kernel/gpio-button-hotplug/src/gpio-button-hotplug.c:275-284 | the counter is full exactly when the next differing reading completes such a run |
| Debounce.DebouncedUnique | package/kernel/gpio-button-hotplug/src/gpio-button-hotplug.c:253-297 | the readings alone decide what is reported |
| Debounce.EventsAlternate | package/kernel/gpio-button-hotplug/src/gpio-button-hotplug.c:253-297 | consecutive events are opposite |
| Debounce.FirstEventIsPressed | package/kernel/gpio-button-hotplug/src/gpio-button-hotplug.c:262-270 | the first event of a button says pressed |
| Debounce.NoRunMissed | package/kernel/gpio-button-hotplug/src/gpio-button-hotplug.c:253-297 | after threshold + 1 equal readings their value is the reported one |
| Debounce.ButtonReportsRun | package/kernel/gpio-button-hotplug/src/gpio-button-hotplug.c:253-297 | a button reports a reading exactly when it and the threshold readings before it are the same and not the one reported last |
| Debounce.SwitchReportsFirst | package/kernel/gpio-button-hotplug/src/gpio-button-hotplug.c:262-284 | a switch reports at exactly the poll numbered by the threshold, even while bouncing |
| Padding.AlignIsRoundUp | tools/padjffs2/src/padjffs2.c:45 | ALIGN gives the low 32 bits of the rounded size, the size itself if and only if it fits |
| Padding.RoundUpTwice | tools/padjffs2/src/padjffs2.c:79-95 | rounding to smaller blocks first does not move a larger one |
| Padding.PadImage | tools/padjffs2/src/padjffs2.c:79-126 | the loop terminates for every length and mask and appends filler and markers for the sizes it stops at |
| Padding.PaddedWhenFits | tools/padjffs2/src/padjffs2.c:79-126 | below 4 GiB: a marker at exactly the requested block ends, filler everywhere else, nothing behind the last marker |
| Padding.BlocksApart | tools/padjffs2/src/padjffs2.c:91-95 | markers are equal in place or at least 1024 bytes apart |
| Padding.PaddedExact | tools/padjffs2/src/padjffs2.c:79-126 | the image is padded as requested if and only if every block ends below 4 GiB or none needs filler |
| Padding.EveryMarkerFits | tools/padjffs2/src/padjffs2.c:24-28 | the same for the end-of-filesystem mark and both fake jffs2 elements |

## Left out

- Dups.Optimizer.EliminateDups: that the value is kept is stated for trees whose constants are not second spellings of y, m or n; which single joins keep it outside that domain is `Joins.JoinExact`. Levels below a negation are left alone, as in the code; `expr_transform` leaves none.
- DepCheck.Checker.CheckAll: undecided are tables with a member that depends on its choice through other symbols, without a cycle that enters choices through their members only, and not `Symbols.Excusable`: whether an error is counted there also depends on which symbol of a cycle comes first in the symbol table.
- Evaluator.CheckThenCalculate: excludes tables with a member that depends on its choice through other symbols. `Evaluator.RoundaboutPasses` shows why: there the check can count no error although two valuations satisfy the equations. In which order symbols have to be asked for to get the one or the other is not followed.
- MenuTree.Finalize: which siblings are absorbed is left open, so the result holds for every decision; the decision itself is `Propagate.BelongsInSubmenu`.
- Finalize.FinalizeTree: every symbol is defined once; when several definitions give the right dependency is `Propagate.MergedExact`. Automatic submenus are `MenuTree.Finalize`, which does not change dependencies.
- Propagate.BelongsInSubmenu: where operands of a presence test can be joined, the test that is compared is fixed up to its value and that nothing is left to join; where none can, it is the test itself.
- Transform.TransCompareExact: the condition on the tree is sufficient; that it is also necessary is stated for negated symbols only, because a larger expression can be right by accident, as A && !A && n.
- Choices.ExactlyOne: members have no defaults of their own, which the original warns about.
- PrintParse.Parse: the parser is its shift and reduce decisions for the expression grammar, with the declared precedences, not the generated tables; a token carries its symbol, so quoting of constants in the printed text does not matter.
- ConfLine.ReadAssignment: lines are cut as strings, not by writing zero bytes into a buffer; only unescaping is done in place.
- Macros.Preprocessor.VariableAdd: the value a variable has while its own new value is expanded is a parameter, because the code has released it at that point.
- Debounce.Button.Handle: the seconds since the previous event that accompany an event are not modelled.
- Padding.PadImage: the pad mask has bits 10 to 31 only, because its arguments are multiplied by 1024; every write succeeds in full.
- Ordering comparisons (`<`, `<=`, `>`, `>=`) and equality of string, int and hex values: an arbitrary three-way outcome per pair of symbols, so `strtoll` parsing is not modelled; for bool and tristate symbols equality with constants is fixed by their value.
- Ranges, symbol-valued or not, and `sym_validate_range`.
- Changes of MODULES during an evaluation: its value is fixed.
- The flags SYMBOL_WRITE, SYMBOL_CHANGED and SYMBOL_NEED_SET_CHOICE_VALUES, and all warnings.
- Sharing and freeing of expressions: trees are owned values behind heap slots; a write through a pointer into a tree is a write at a path.
- Expression types E_LIST and E_RANGE, and prompts of choices with no name.
- In menu_finalize: the types of members, and the extra condition choice = y for members of a tristate choice that are no tristates, which only narrows what is guarded already.
- Choice bookkeeping while a configuration is read, and comparing it with the calculated values (`conf_read`).
- The lexer, the rest of the grammar, the user interfaces, file and process input and output.
- The built-in macro functions: what they return is a parameter; how many arguments they take is modelled.
- Byte order conversion of MD5 input on big-endian machines: words are assembled low-order byte first on both.
- Clearing the hash contexts after use.
- Nothing is executed: all statements are about the model.
