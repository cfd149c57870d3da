# Neve compiler core, modelled in Dafny

This project models the middle of the Neve compiler and the lexer it sits on. Both the Kotlin compiler (`src/`) and the older Python optimizer (`nevec/opt/`) are covered. Each part of the source gets the form its code has. Pure Kotlin code (`when` expressions over sealed classes, immutable data classes and recursion) becomes datatypes, functions and lemmas. Code that updates state becomes classes with `modifies` clauses, each method proved against a specification function:

- the lexer `Lex`, its cursor `Chars`, `InterpolState` and the `Relex` peephole;
- the id counters `Terms` and `Blocks`, and `Names`;
- the lowering visitor `Lower`;
- the Python folder's `visit_*` methods.

What is modelled, in the source's own terms:

- **IR vocabulary** (`Ir`): terms, `IrConst` with the equality its data classes generate, `Tac`, `Op`, and their `term`, `allTerms` and `isDefinition`.
- **Def/use bookkeeping** (`TermChanges`, `TermStats`, `FunStats`): `TermChange` and `Change`, with `deriveFrom` and `applyTo`. `TermData` and `FunData` are built from a function's operations and updated by changes.
- **Pass framework** (`Canvases`, `Optimization`): the canvas visits every model operation once and applies `Transform`s by flattened index. `Opt` runs the passes round after round until nothing changes or the repetition threshold of 3 is reached.
- **Passes**: constant folding (`ConstFolding`, with Kotlin `Int` semantics in `KotlinInt` and `Bits`), table propagation, constant reuse, dead term elimination and the term replacer.
- **Python optimizer** (`PyConstFolding`, `PyOptimizing`): `fold_*`, `folded` and the `visit_*` methods of the constant folder, and the pass driver of `opt.py`.
- **Lowering** (`Lowering`, `LoweringFacts`, `LoweringLayout`, `Composing`, `Providers`, `Naming`): the syntax tree becomes one basic block per function. The list-composition helpers build it. Lowering hands out every temporary once, in order, and defines each before it is read.
- **Types** (`Types`, `InferBothTypes`, `TypeBothTypes`, `Unify`): type factories and comparisons, and unification.
- **Lexer** (`TokKinds`, `Toks`, `Operators`, `CharCursor`, `Interpolation`, `Relexing`, `LexSpec`, `Lexing`, `TokenStream`, `LexFacts`, `LexExamples`): token kinds and tables, the single-pass lexer, and the `not in` / `is not` peephole. The stream ends with its only `EOF`.
- **String helpers** (`StringExt`, `Decimal`).

Where the source's parts disagree with each other, the model follows the code that runs:

- `Lower.kt` matches `Expr.OfUnOp`, `Expr.OfBinOp`, `Expr.OfLit` and `Expr.OfInterpol`. `ast/hierarchy/expr/Expr.kt` declares `UnOpExpr`, `BinOpExpr`, `LitExpr`, `InterpolExpr`, `Access` and `AccessConst` instead. The syntax tree here is the one `Lower.kt` reads.
- `Unify.kt` calls pair queries on `infer.comp.BothTypes` that only `type.comp.BothTypes` defines. Each query is taken from the file that defines it.
- The passes return `Transform.Remove`, which `Transform.kt` does not declare. It is modelled as a replacement by `Op.Dummy` of the same term.
- `ConstFold.kt` calls `withChange` on a transform (line 35), and no file of the repository defines it. `ConstFolding.WithChange` adds the change at the end of a replacement's changes and leaves a retained operation alone, since `Transform.Retain` carries no changes.
- `IrConst.kt` declares an `equals` that compares tables only over the shorter of their key and value lists, and a `hashCode` of the variant's class alone. Neither is `final`, and every variant is a `data class` or `data object`, so Kotlin generates `equals` and `hashCode` for each variant and those run instead. The model follows the generated ones: constants, operations and map keys compare structurally, which is Dafny's `==`. `Ir.DeclaredEqualsIsShadowed` shows where the written `equals` would differ.
- `Type.kt` (line 75) and `unresolved/Unresolved.kt` (line 20) use a `TypeKind.OfUnresolved` variant that `kind/TypeKind.kt` does not declare. The model adds it as `Types.OfUnresolved`, the kind of the recessive `Unresolved` object, so that `isUnresolved` and `wrap` have the variant they name.
- `Lex.kt` calls `Match.findTok`/`findKeyword`; the tables are those of `lex/Toks.kt`.
- `type/impl/Compare.kt` documents that `isSame` also compares the type parameters of applied types. `Applied.kt` overrides only `named()`, which is the wrapped type's name. `TypeKind.isSame` compares the variant and then the parts, so `Types.IsSame` compares the kind variant and the name, and applied types with the same wrapped type but different arguments count as the same.
- `Toks.kt` lexes `+=`, `-=`, `*=`, `/=`, `<<=` and `>>=` into kinds `TokKind.kt` does not list. Those kinds are added after the listed ones.
- `test/lex/LexTest.kt` expects `#` to start a comment, but `Lex.kt` skips `--` comments. The model follows `Lex.kt`.
- `test/infer/unify` expects `Int..?` with `Int` to unify to `Int`. The code as written gives Unknown, and `Unify.InferMixedIsUnknown` states what the code does.
- `ConstReuse` is modelled as a pass, but `Opt.kt`'s pass list holds only constant folding and dead term elimination. The pipeline follows the list.
- `Compose.merge`'s doc comment says the left compose's operations come after the right one's. The code puts the receiver's first, and `Composing.MergeReceiverFirst` states that order.
- `Opt.kt`'s doc comment gives a repetition threshold of 3 on debug builds and 10 on release builds. `repetitionThreshold` returns 3, and so does the model.
- `ConstFold.kt` guards its folds with Kotlin `assert`, which the JVM disables by default. The assertions have no effect in the model; a failed `as` cast is an error.
- `foldShowFormat` shows a table through `wrappedIn`, which throws for fewer than two elements. Showing a table of no pair or one pair is therefore an error.
- `Names.kt` promises unique names, but uniqueness holds only per desired name. `Naming.DesiredNamesCollide` shows the eleventh new `t` and the first `t1` both named `t10`.
- `TermData.kt` updates statistics through the older `Change`-with-terms interface. The model applies each `TermChange` to the terms its `terms()` names.

## Model

| member | source | states |
|---|---|---|
| Types.Unresolved | src/type/Type.kt:37-39 | the `unresolved()` factory builds a poisoned type with the undefined domain |
| Types.UndefinedType | src/type/Type.kt:48-50 | the `undefined(name)` factory builds a poisoned type with the undefined domain |
| Types.UnknownType | src/type/Type.kt:55-57 | the `unknown()` factory builds a poisoned type with the undefined domain |
| Types.Poisoned | src/type/Type.kt:64-66 | `poisoned(with)` has kind `OfPoison(with)` and the undefined domain |
| Types.Cured | src/type/Type.kt:121-126 | the result is absent exactly when the type is poisoned, and is the type itself otherwise |
| Types.IsIdenticalIsSame | src/type/Type.kt:144-146 | with a single domain value, `isIdentical` holds exactly when `isSame` does |
| Types.UnresolvedFactoryIsNotUnresolved | src/type/Type.kt:37-76 | `unresolved()` builds a poison, so `isUnresolved()` is false on it and it is not the same as the recessive `OfUnresolved` type, although both have the same name |
| Types.FreeAndQuantShareName | src/type/kind/TypeKind.kt:175-199 | a free and a quantified type with one id have the same name but are not the same, since their kind variants differ |
| Types.FreeNamesDistinct | src/type/kind/TypeKind.kt:175-183 | two free types have the same name exactly when their ids are equal |
| Types.IsSameEquivalence | src/type/Type.kt:156-158 | `isSame` is reflexive, symmetric and transitive |
| InferBothTypes.PickUnifiable | src/infer/comp/BothTypes.kt:108-117 | the result is one of the two, is free only when both are, is `a` when both are free and `b` whenever `b` is not free |
| InferBothTypes.CanBeUnifiedFacts | src/infer/comp/BothTypes.kt:28-33 | a free side makes a pair unifiable; otherwise unifiable means the same kind variant; the relation is symmetric |
| InferBothTypes.AreUnknownIsEither | src/infer/comp/BothTypes.kt:85-105 | `areUnknown` is the same test as `eitherIsUnknown`, so one unknown side suffices despite the name |
| TypeBothTypes.PickResolved | src/type/comp/BothTypes.kt:132-141 | the result is one of the two, is unresolved only when both are, is `a` when both are and `b` whenever `b` is resolved |
| TypeBothTypes.PickHinted | src/type/comp/BothTypes.kt:143-159 | requires a hinted side; gives the type under `a`'s hint when `a` is hinted, else under `b`'s |
| TypeBothTypes.PickPoison | src/type/comp/BothTypes.kt:161-179 | the result is poisoned: `Ignorable` when either side is unknown, `Unknown` otherwise |
| TypeBothTypes.UnwrapHint | src/type/comp/BothTypes.kt:209-214 | a hinted type gives the type under the hint; any other type is returned unchanged |
| TypeBothTypes.UnwrapHints | src/type/comp/BothTypes.kt:181-191 | each side is unwrapped on its own |
| TypeBothTypes.UnwrapHintShrinks | src/type/comp/BothTypes.kt:209-214 | unwrapping removes exactly one hint layer: a hinted type gets strictly smaller, others stay the same |
| Unify.All | src/infer/unify/Unify.kt:55-60 | two types are unified directly; fewer than two never reach the base case and end in a stack overflow, modelled as an error |
| Unify.AllSame | src/infer/unify/Unify.kt:55-60 | a list of two or more copies of one ground type unifies to that type |
| Unify.Assuming | src/infer/unify/Unify.kt:85-92 | the result is `a` exactly when some listed type and `b` share `a`'s name, and Unknown otherwise |
| Unify.Into | src/infer/unify/Unify.kt:103-108 | the result is `what` exactly when the pair shares a name, and Unknown otherwise |
| Unify.AssumingFacts | src/infer/unify/Unify.kt:85-92 | with no listed types the result is Unknown; a type assumed against itself is kept |
| Unify.UnifyPoison | src/infer/unify/Unify.kt:205-207 | two poisons unify to the Ignorable poison |
| Unify.InferUnunifiable | src/infer/unify/Unify.kt:117-120 | a pair whose kinds cannot meet unifies to Unknown |
| Unify.InferFree | src/infer/unify/Unify.kt:122-124 | with a free side the result is `a` when `b` is free and `b` otherwise |
| Unify.InferAppliedArity | src/infer/unify/Unify.kt:174-177 | applied types with different argument counts unify to Unknown |
| Unify.InferPrim | src/infer/unify/Unify.kt:189-196 | primitives of different kinds unify to Unknown; of one kind, the result is a primitive of that kind |
| Unify.InferPoisoned | src/infer/unify/Unify.kt:130-132 | two poisoned types unify to Ignorable |
| Unify.InferMixedIsUnknown | src/infer/unify/Unify.kt:117-120 | a hinted or poisoned type against a primitive fails the kind check first and gives Unknown, so the hint and poison branches are never reached for it |
| Unify.InferQuantThrows | src/infer/unify/Unify.kt:152-154 | two quantified types make unification throw `IllegalArgumentException` |
| Unify.InferSelf | src/infer/unify/Unify.kt:137-203 | a ground type (records, primitives and applied types over them) unifies with itself to itself |
| Unify.InferTotal | src/infer/unify/Unify.kt:117-157 | without quantified or unresolved parts, unification never throws |
| Unify.UnitTestOutcomes | test/infer/unify/UnifyTest.kt:17-72 | the results the unit tests expect for Int, Table and free types |
| Unify.TableTestOutcomes | test/infer/unify/UnifyTest.kt:75-105 | the results the unit tests expect for applied table types of different arity and with free arguments |
| StringExt.WrappedIn | src/util/extension/StringExtension.kt:37-39 | the result is `begin`, then the string, then `end`, each at its own position |
| StringExt.WrappedInQuotes | src/util/extension/StringExtension.kt:44-46 | one `"` on each side, with the string unchanged between them |
| StringExt.InfixWith | src/util/extension/StringExtension.kt:58-60 | the first string, the separator and the second string, in that order |
| StringExt.Indent | src/util/extension/StringExtension.kt:65-67 | same length; every element is prefixed with two spaces |
| StringExt.TrimQuotesAround | src/util/extension/StringExtension.kt:103-119 | a string of at most two quotes becomes empty; otherwise at most one leading and one trailing `"` are removed, and nothing else changes |
| StringExt.TrimWrappedInQuotes | src/util/extension/StringExtension.kt:44-112 | trimming the quotes of a string wrapped in quotes gives back the string |
| StringExt.TrimQuotesAroundOnce | src/util/extension/StringExtension.kt:85-101 | only the outer quote pair goes: `""x""` trims to `"x"`, as the doc comment's example shows |
| StringExt.WrappedInList | src/util/extension/StringExtension.kt:76-83 | an empty list throws `NoSuchElementException` and a one-element list `IllegalArgumentException`; otherwise the size is kept, `begin` goes before the first element, `end` after the last, and the rest are unchanged |
| StringExt.Take | src/util/extension/StringExtension.kt:80 | Kotlin's `take`: a negative count throws; otherwise the result is the prefix of the requested or the whole length |
| KotlinInt.Wrap | src/opt/passes/ConstFold.kt:220-246 | the `Int` congruent to a number modulo 2^32, equal to it when it already fits: the JVM's silent overflow |
| KotlinInt.Plus | src/opt/passes/ConstFold.kt:224 | `Int` addition: exact when the sum fits, otherwise off by 2^32 in the direction of the overflow |
| KotlinInt.Minus | src/opt/passes/ConstFold.kt:238 | `Int` subtraction: exact when the difference fits, otherwise off by 2^32 |
| KotlinInt.Times | src/opt/passes/ConstFold.kt:196 | `Int` multiplication: congruent to the exact product modulo 2^32 and equal to it when it fits |
| KotlinInt.Negate | src/opt/passes/ConstFold.kt:272 | `-x` is exact except for `MIN_VALUE`, which stays `MIN_VALUE` |
| KotlinInt.TruncDiv | src/opt/passes/ConstFold.kt:210 | division truncating toward zero: the remainder is smaller than the divisor and has the dividend's sign, and the quotient is no larger than the dividend |
| KotlinInt.QuotientInRange | src/opt/passes/ConstFold.kt:210 | a quotient of two `Int`s fits an `Int` except for `MIN_VALUE / -1` |
| KotlinInt.Div | src/opt/passes/ConstFold.kt:210 | `Int` division throws `ArithmeticException` exactly for a zero divisor, gives the truncated quotient otherwise, and `MIN_VALUE / -1` wraps to `MIN_VALUE` |
| KotlinInt.Shl | src/opt/passes/ConstFold.kt:177 | `shl` shifts by the count modulo 32 and wraps |
| KotlinInt.Shr | src/opt/passes/ConstFold.kt:186 | `shr` is the floor of the value divided by 2 to the count modulo 32 |
| KotlinInt.BitwiseIdentities | src/opt/passes/ConstFold.kt:147-172 | `and`, `or` and `xor` on `Int`s obey their identity, idempotence and zero laws |
| KotlinInt.OverflowExamples | src/opt/passes/ConstFold.kt:220-272 | `MAX_VALUE + 1` is `MIN_VALUE`, `MIN_VALUE - 1` is `MAX_VALUE` and `-MIN_VALUE` is `MIN_VALUE` |
| KotlinInt.DivisionExamples | src/opt/passes/ConstFold.kt:210 | `7 / -2` and `-7 / 2` are `-3`, `MIN_VALUE / -1` is `MIN_VALUE` and `1 / 0` throws |
| KotlinInt.ShiftFacts | src/opt/passes/ConstFold.kt:174-190 | a shift by 0 or 32 is the identity; `shr` keeps the sign and never grows the magnitude; all ones stays all ones |
| Bits.AndIdentities | src/opt/passes/ConstFold.kt:159 | two's-complement `and` is idempotent, has all ones as identity and zero as absorbing element |
| Bits.OrIdentities | src/opt/passes/ConstFold.kt:150 | `or` is idempotent, has zero as identity and all ones as absorbing element |
| Bits.XorIdentities | src/opt/passes/ConstFold.kt:168 | `x xor x` is zero and zero is the identity |
| Bits.Commutative | src/opt/passes/ConstFold.kt:147-172 | the three bitwise operators are commutative |
| Bits.ShiftLeftIsProduct | src/opt/passes/ConstFold.kt:177 | a left shift by k multiplies by 2^k |
| Bits.ShiftRight | src/opt/passes/ConstFold.kt:186 | an arithmetic right shift by k is the floor of the division by 2^k, keeps the sign and does not grow the magnitude |
| ConstFolding.AllOk | src/opt/passes/ConstFold.kt:307-309 | the renderings of all elements in order, or a failure exactly when one of them fails |
| ConstFolding.JoinToString | src/opt/passes/ConstFold.kt:314 | a single string joins to itself |
| ConstFolding.NewConst | src/opt/passes/ConstFold.kt:342-355 | the replacement is a constant with the code's receiver and line, carrying the changes a new constant derives |
| ConstFolding.WithChange | src/opt/passes/ConstFold.kt:35-38 | a retained operation is unchanged; a replacement gets the change appended after its own |
| ConstFolding.Defs | src/opt/passes/ConstFold.kt:45-46 | the result is no longer than the operands, and each element is the definition of some operand |
| ConstFolding.CallbackDecides | src/opt/passes/ConstFold.kt:32-53 | non-arithmetic operations and codes whose operands are not all foldable constants are retained unchanged; a replacement is a constant with the code's receiver and line whose changes end with the release of the operands |
| ConstFolding.SetTableNotFoldable | src/opt/passes/ConstFold.kt:361-378 | a table constant whose term a `TableSet` uses is not foldable |
| ConstFolding.EqualityFolds | src/opt/passes/ConstFold.kt:83-99 | `==` and `!=` always fold and always disagree; `==` folds to true exactly for equal constants, tables compared by their whole key and value lists, so tables of different lengths fold to false |
| ConstFolding.ComparisonFolds | src/opt/passes/ConstFold.kt:101-190 | comparisons on two `Int`s fold to the comparison's `Bool`, `>` being `<` flipped and `>=` the negation of `<` |
| ConstFolding.IntOnlyKindErrors | src/opt/passes/ConstFold.kt:101-190 | comparisons, bitwise operators and shifts on anything but two `Int`s throw `ClassCastException` |
| ConstFolding.IntArithmeticFolds | src/opt/passes/ConstFold.kt:192-246 | `Int` addition and subtraction fold exactly when no overflow occurs and wrap otherwise; division by zero throws `ArithmeticException`; other divisions truncate |
| ConstFolding.ArithmeticKindErrors | src/opt/passes/ConstFold.kt:192-246 | a right operand of another kind than the left fails its cast; a left operand that is neither `Int` nor `Float` throws `IllegalArgumentException`; two floats fold to a float |
| ConstFolding.ConcatFolds | src/opt/passes/ConstFold.kt:137-145 | concatenation gives a string with one quote at each end holding the two unquoted contents joined |
| ConstFolding.ConcatQuoted | src/opt/passes/ConstFold.kt:137-145 | two quoted strings concatenate to the quoted concatenation of their contents |
| ConstFolding.UnaryFolds | src/opt/passes/ConstFold.kt:263-293 | negation of an `Int` and `not` of a `Bool` undo themselves; `not` on a non-`Bool` fails its cast and negation of a non-number throws |
| ConstFolding.ShowFolds | src/opt/passes/ConstFold.kt:248-300 | showing a quoted string leaves it unchanged, and an `Int` shows as its quoted decimal digits |
| ConstFolding.ShowEmptyTable | src/opt/passes/ConstFold.kt:248-302 | an empty table shows as `"[:]"` |
| ConstFolding.TrimUnquoted | src/opt/passes/ConstFold.kt:253-257 | a rendering that neither starts nor ends with a quote survives the trimming unchanged |
| ConstFolding.DecimalUnquoted | src/opt/passes/ConstFold.kt:297 | the decimal rendering of an integer is non-empty and neither starts nor ends with a quote |
| ConstFolding.ShowEmptyPairs | src/opt/passes/ConstFold.kt:307-315 | a table of no pairs cannot be shown: taking the first of no pairs throws |
| ConstFolding.ShowOnePair | src/opt/passes/ConstFold.kt:307-315 | a table of one pair cannot be shown: the bracket wrapping throws on a one-element list |
| ConstFolding.FoldedOperation | src/opt/passes/ConstFold.kt:55-81 | folding a `TableSet`, or a binary code with fewer than two definitions, throws; a successful fold replaces the code by a constant with the same receiver and line whose first change is that constant's own |
| Ir.DeclaredEqualsIsShadowed | src/ir/structure/consts/IrConst.kt:45-70 | the `equals` written in `IrConst.kt`, which the generated data-class equality shadows, would call a one-entry table equal to a two-entry table extending it, which the generated equality keeps apart, and it is not transitive |
| Ir.DeclaredEqualsAgreesOnScalars | src/ir/structure/consts/IrConst.kt:45-65 | outside tables, the written `equals` and the generated one agree |
| Ir.TablesOfOtherLengthDiffer | src/ir/structure/consts/IrConst.kt:30 | under the generated equality of the `OfTable` data class, tables whose key lists differ in length are unequal |
| Ir.Operands | src/ir/structure/op/Op.kt:64-70 | the operands are all terms but the first |
| Ir.OpShape | src/ir/structure/op/Op.kt:56-78 | a dummy has no terms; otherwise the first term is the operation's term and the rest are its operands, one for a unary code and two for a binary code or `TableSet`; definitions are constants and codes other than `TableSet` |
| TermChanges.RemoveUse | src/ir/data/change/TermChange.kt:64-72 | the kept uses are exactly those not equal to the removed one, and there are no more of them than before |
| TermChanges.RemoveAbsentUse | src/ir/data/change/TermChange.kt:64-72 | removing a use that no recorded use equals changes nothing |
| TermChanges.ApplyTo | src/ir/data/change/TermChange.kt:48-95 | `Uses` appends its operation and keeps the definition; `Unuse` keeps the definition and exactly the uses not equal to its operation; `Def` sets the definition and keeps the uses |
| TermChanges.UnuseUndoesUses | src/ir/data/change/TermChange.kt:48-72 | recording a use and then unrecording it gives back the statistics it started from, when the operation was not used before |
| TermChanges.RemoveUseAppend | src/ir/data/change/TermChange.kt:64-72 | removing an operation just appended removes the appended copy as well as any earlier equal ones |
| TermChanges.DeriveFrom | src/ir/data/change/TermChange.kt:24-39 | two changes: a `Def` of the operation's term exactly when it is a definition, else a use of it; then a use of every operand; nothing is unused and no other term is touched |
| TermChanges.ReverseAppend | src/ir/data/term/TermData.kt:48-55 | reversing a concatenation reverses the order of the parts |
| TermStats.Update | src/ir/data/term/TermData.kt:65-70 | the terms a change names get the change applied to their statistics (the defaults when unrecorded); every other term keeps its statistics |
| TermStats.Plus | src/ir/data/term/TermData.kt:75-79 | the merged map has both key sets, and the right operand's statistics win where both have a term |
| TermStats.UpdateAllAppend | src/ir/data/term/TermData.kt:48-55 | the changes of a later list are applied before those of an earlier one |
| TermStats.UsesEffect | src/ir/data/change/TermChange.kt:48-51 | a `Uses` change appends its operation once to each term it names and changes no definition |
| TermStats.DeriveFromEffect | src/ir/data/change/TermChange.kt:24-35 | one operation's changes append it once to the uses of each term it reads, however often that term occurs among its operands, and set the term's definition when the operation defines it |
| TermStats.DefinitionEffect | src/ir/data/change/TermChange.kt:24-35 | a definition's operands record it as a use, and then its term records it as the definition |
| TermStats.ReaderEffect | src/ir/data/change/TermChange.kt:24-35 | any other operation is recorded as a use once for its operands and once more for its own term, and sets no definition |
| TermStats.DefEffect | src/ir/data/change/TermChange.kt:87-90 | a `Def` change sets the definition of its one term and touches no uses |
| TermStats.FirstDef | src/ir/data/term/TermData.kt:41-46 | a found definition is among the operations, defines the term and has its id; when none is found no operation defines the term |
| TermStats.FromOpsStats | src/ir/data/term/TermData.kt:41-55 | each term's definition is the first operation defining it, and its uses are the operations using it in reverse program order |
| TermStats.FromStats | src/ir/data/term/TermData.kt:41-46 | the same over the operations of all blocks in order |
| FunStats.Lookup | src/ir/data/fun/FunData.kt:42-44 | a found entry's key equals the constant and its terms are returned; no entry is found only when no key equals it |
| FunStats.Put | src/ir/data/change/Change.kt:46-48 | putting a key replaces an equal key's entry or appends one |
| FunStats.PutAll | src/ir/data/fun/FunData.kt:49-54 | merging nothing keeps the map; merging one entry puts it |
| FunStats.PutReplacesFirst | src/ir/data/change/Change.kt:46-48 | a put whose key is already present replaces that entry's terms and leaves every other entry where it was |
| FunStats.PutAppends | src/ir/data/change/Change.kt:46-48 | a put whose key is not present appends the new entry after all the others |
| FunStats.LookupLast | src/ir/data/fun/FunData.kt:49-54 | the last entry whose key equals the probe; none exactly when no key equals it |
| FunStats.PutAllLookup | src/ir/data/fun/FunData.kt:49-54 | for any key, the merged map answers with the right operand's entry for that key (its last one), and with the left operand's answer when the right operand does not hold the key |
| FunStats.PutKeepsKeysDistinct | src/ir/data/change/Change.kt:46-48 | a put into a map whose keys are distinct leaves them distinct, as a `HashMap` holds each key once |
| FunStats.LookupLastIsLookup | src/ir/data/fun/FunData.kt:42-44 | with distinct keys, the last entry for a key is the one a lookup finds |
| FunStats.MergeLookup | src/ir/data/fun/FunData.kt:49-54 | merging a map with distinct keys: a key it holds answers with its entry, any other key with the left operand's entry |
| FunStats.PutLookup | src/ir/data/change/Change.kt:42-66 | a put answers lookups of its own key with the new terms and leaves every other key's lookup alone |
| FunStats.Minus | src/ir/data/change/Change.kt:63 | Kotlin's `list - element` removes one occurrence: the multiset loses one copy, and an absent element changes nothing |
| FunStats.MinusAppended | src/ir/data/change/Change.kt:42-66 | removing a term just appended gives back the list before it |
| FunStats.ApplyChangeTermsUsing | src/ir/data/change/Change.kt:42-66 | `Const` appends its term to the constant's terms, `Unconst` removes it, and every other change or constant keeps them |
| FunStats.UnconstUndoesConst | src/ir/data/change/Change.kt:42-66 | recording and then unrecording a term under a constant gives back the terms before |
| FunStats.ApplyChangeTermData | src/ir/data/change/Change.kt:73-78 | only term changes touch the term statistics, and they do it as `TermData.update` |
| FunStats.WrapAll | src/ir/data/change/Change.kt:31-33 | each term change is wrapped in order |
| FunStats.DeriveFrom | src/ir/data/change/Change.kt:17-29 | a constant operation first records its term under its constant; the term changes follow |
| FunStats.UpdateAllAppend | src/ir/data/fun/FunData.kt:30-35 | the changes of a later list are applied before those of an earlier one |
| FunStats.WrappedKeepTermsUsing | src/ir/data/change/Change.kt:73-78 | term changes leave the terms held under a constant alone |
| FunStats.FromOpsTermsUsing | src/ir/data/fun/FunData.kt:23-35 | the terms recorded under a constant are those of the constant operations holding it, in reverse program order |
| FunStats.FirstConstTermIsLast | src/ir/data/fun/FunData.kt:23-28 | as many terms are recorded under a constant as operations hold it, and the first recorded is the last in program order |
| FunStats.TermPartAppend | src/ir/data/fun/FunData.kt:30-35 | the term changes of a concatenation are those of each part, in order |
| FunStats.TermPartWrapped | src/ir/data/change/Change.kt:31-33 | unwrapping wrapped term changes gives them back |
| FunStats.UpdateAllTermData | src/ir/data/fun/FunData.kt:30-35 | a function's term statistics follow its term changes alone |
| FunStats.TermPartOfChanges | src/ir/data/change/Change.kt:17-33 | the term changes of the function's changes are those `TermData` derives |
| FunStats.FromTermData | src/ir/data/fun/FunData.kt:23-28 | `FunData.from` has the term statistics of `TermData.from`: each term's first definition and its users in reverse order |
| FunStats.IrFunFrom | src/ir/data/fun/FunData.kt:23-28 | a function's statistics are derived from its blocks, which it keeps with its name |
| Canvases.TransformChanges | src/opt/transform/Transform.kt:44 | a retained operation carries no changes; a replacement carries its own |
| Canvases.Remove | src/ir/structure/op/Op.kt:46-54 | removal puts a dummy with the operation's term in its place, carrying the given changes; the dummy has no terms and defines nothing |
| Canvases.From | src/opt/canvas/Canvas.kt:37-44 | a new canvas produces the model itself and has no changes |
| Canvases.SameShapeLength | src/opt/canvas/Canvas.kt:107-114 | block lists of the same shape flatten to the same number of operations |
| Canvases.SameShapeTransitive | src/opt/canvas/Canvas.kt:107-114 | having the same shape is transitive |
| Canvases.ReplacementCopy | src/opt/canvas/Canvas.kt:123-129 | the copy keeps the block's id and name and has the new operation at the index, every other operation unchanged |
| Canvases.ReplaceIn | src/opt/canvas/Canvas.kt:102-114 | replacing by flattened index keeps every block's id, name and size |
| Canvases.ReplaceInFlattens | src/opt/canvas/Canvas.kt:102-114 | the flattened operations change only at the replaced index, and not at all when it is out of range |
| Canvases.ApplyChangesLastFirst | src/opt/canvas/Canvas.kt:131-139 | the last change is applied first |
| Canvases.ApplyChangesIsUpdateAll | src/opt/canvas/Canvas.kt:131-139 | applying changes is the same fold as `FunData.updateAll`, so a canvas applies a transform's changes as `FunData.from` would |
| Canvases.ApplyTransform | src/opt/canvas/Canvas.kt:92-121 | the transform's changes are returned; retaining keeps the produced function; replacing keeps its name and shape, applies the changes to its statistics and swaps only the operation at the visited index |
| Canvases.Visit | src/opt/canvas/Canvas.kt:82-89 | a visit fails exactly when the callback throws on the model's operation and the produced statistics, and keeps the model |
| Canvases.RecursiveEachOp | src/opt/canvas/Canvas.kt:66-80 | the model never changes, the change list only grows, and the produced blocks keep their ids, names and sizes and the function its name |
| Canvases.PrefixOfPrefix | src/opt/canvas/Canvas.kt:76-79 | a prefix of a prefix is a prefix, so the change list only grows |
| Canvases.Calls | src/opt/canvas/Canvas.kt:66-89 | the callback's calls see the model's operations in order from `iteration`, never past the last, the first call seeing the produced function's statistics |
| Canvases.CallsCount | src/opt/canvas/Canvas.kt:66-89 | when no call throws, the callback is called exactly once for each model operation from `iteration` on |
| Canvases.VisitsOn | src/opt/canvas/Canvas.kt:66-89 | a run of visits that does not throw has a first visit that does not throw and a run after it that does not throw |
| Canvases.CallsOn | src/opt/canvas/Canvas.kt:74-79 | a visit that does not throw contributes one call, followed by the calls of the visits after it |
| Canvases.EarlierOpsKept | src/opt/canvas/Canvas.kt:66-121 | later visits never touch an operation at an earlier flattened index |
| Canvases.AllRetainedIsIdentity | src/opt/canvas/Canvas.kt:66-97 | a callback that retains everything leaves the canvas as it was |
| TablePropagating.TableSets | src/opt/passes/TablePropagation.kt:119-125 | only `TableSet` codes are kept, and no more of them than there were operations |
| TablePropagating.ConstValues | src/opt/passes/TablePropagation.kt:127-134 | at most one constant per term |
| TablePropagating.KeysOf | src/opt/passes/TablePropagation.kt:127 | the keys of the `TableSet`s, one per code and in order |
| TablePropagating.ValuesOf | src/opt/passes/TablePropagation.kt:128 | the values of the `TableSet`s, one per code and in order |
| TablePropagating.ZipUnzip | src/opt/passes/TablePropagation.kt:136 | both lists cut to the shorter length, each keeping its own prefix |
| TablePropagating.KeysAndVals | src/opt/passes/TablePropagation.kt:118-137 | as many keys as values |
| TablePropagating.CallbackScope | src/opt/passes/TablePropagation.kt:45-67 | the pass never throws, and retains every operation that is neither a table constant nor a `TableSet` |
| TablePropagating.TablePropagateSpec | src/opt/passes/TablePropagation.kt:69-90 | a table constant is retained exactly when no new entry is found; otherwise it becomes a constant with the same term and line holding its old entries followed by the found ones, empty only when it has no key, with the changes that constant derives |
| TablePropagating.RemoveTableSetSpec | src/opt/passes/TablePropagation.kt:92-116 | a `TableSet` is removed exactly when its table, key and value are defined, key and value are constants and the table constant already holds that pair; removal puts a dummy in its place and unuses all three terms |
| TablePropagating.UnmatchedDropped | src/opt/passes/TablePropagation.kt:136 | keys and values pair by position, so the extra ones of the longer list are dropped |
| TablePropagating.UsesReversedInProgramOrder | src/opt/passes/TablePropagation.kt:119-122 | reversing a term's recorded uses gives its users in program order |
| TablePropagating.ReverseReverse | src/opt/passes/TablePropagation.kt:122 | reversing twice gives the list back |
| ConstReusing.FirstTermOf | src/opt/passes/ConstReuse.kt:94-96 | there is a first term exactly when some term holds the constant, and it is one of those terms |
| ConstReusing.ConstOperands | src/opt/passes/ConstReuse.kt:57-59 | a term is kept exactly when it is an operand whose definition is a constant |
| ConstReusing.LaterDefs | src/opt/passes/ConstReuse.kt:69-73 | one definition per operand defined later than its constant's first term, each a constant definition that is not the first |
| ConstReusing.FirstTerms | src/opt/passes/ConstReuse.kt:75-81 | a new term per definition exactly when every constant has a first term, and then the i-th is the first term of the i-th constant |
| ConstReusing.ConstDefSpec | src/opt/passes/ConstReuse.kt:49-54 | a constant definition is retained exactly when its term is its constant's first term; otherwise it is removed and its term stops holding the constant |
| ConstReusing.NoConstOperandsRetained | src/opt/passes/ConstReuse.kt:56-66 | an operation with no operand defined by a constant is retained as it is |
| ConstReusing.LaterOperandRedirected | src/opt/passes/ConstReuse.kt:68-92 | an operand defined later than its constant's first term is replaced by that first term, and the replaced terms are unused by the operation |
| ConstReusing.OtherOperandKept | src/opt/passes/ConstReuse.kt:68-92 | every operand not defined by a later definition stays in its place |
| ConstReusing.MissingFirstTermThrows | src/opt/passes/ConstReuse.kt:75-83 | the pass fails with `IllegalArgumentException` exactly when a later definition's constant has no first term |
| ConstReusing.ReplacedMentioned | src/opt/passes/ConstReuse.kt:69-83 | every term the pass replaces is one the operation mentions |
| ConstReusing.AsWrittenAgrees | src/opt/passes/ConstReuse.kt:83 | the pass calls `replace` as written; whenever each constant definition found for an operand defines that operand, it gives the same operation as the documented replacement, since the replaced terms are then operands |
| DeadTermEliminating.UnconstChange | src/opt/passes/DeadTermElim.kt:39-44 | a constant definition adds exactly the change that its term stops holding the constant; any other operation adds none |
| DeadTermEliminating.RemovedIffDead | src/opt/passes/DeadTermElim.kt:22-29 | an operation is removed exactly when it defines a term with no use, so `Print`, `Ret` and `TableSet` are never removed; a removal leaves a dummy |
| DeadTermEliminating.RemovalSteps | src/opt/passes/DeadTermElim.kt:31-37 | the removal's constant change takes effect before its definition change |
| DeadTermEliminating.RemovalClearsDef | src/opt/passes/DeadTermElim.kt:31-37 | after a removal the term has no definition and keeps its uses; every other term is as before |
| DeadTermEliminating.RemovalUnconsts | src/opt/passes/DeadTermElim.kt:31-44 | a removed constant definition no longer holds its constant; removing anything else leaves the constants alone |
| TermReplacing.PairsToMap | src/opt/help/TermReplacer.kt:299 | every key of the pairs is in the map, and every map key comes from a pair |
| TermReplacing.PairsToMapLast | src/opt/help/TermReplacer.kt:299 | a key that no later pair repeats maps to its own pair's value: the last pair with a key wins |
| TermReplacing.Mentioned | src/opt/help/TermReplacer.kt:297 | keeps exactly the terms to replace that the operation mentions, never more than given |
| TermReplacing.MentionedPairs | src/opt/help/TermReplacer.kt:296-300 | the intended pairs are exactly the positional pairs whose term the operation mentions |
| TermReplacing.GetOrSame | src/opt/help/TermReplacer.kt:302-304 | the mapped term when the key is in the map, the key itself otherwise |
| TermReplacing.MapTerms | src/opt/help/TermReplacer.kt:50-285 | each term becomes its mapped term, position by position |
| TermReplacing.ReplaceWith | src/opt/help/TermReplacer.kt:41-285 | the operation keeps its kind and constants, each of its terms is mapped, and a dummy is returned unchanged |
| TermReplacing.Replace | src/opt/help/TermReplacer.kt:32-48 | lists of different sizes throw `IllegalArgumentException` and only they do; otherwise the operation keeps its shape and its terms are mapped through the map built as written |
| TermReplacing.ReplaceIntended | src/opt/help/TermReplacer.kt:14-31 | as documented: the same size rule, the same shape, and as many terms as before |
| TermReplacing.ReplaceIntendedPairs | src/opt/help/TermReplacer.kt:17-28 | with consistent pairs, a term equal to the i-th term to replace becomes the i-th new term and a term not to replace stays |
| TermReplacing.PairsToMapValue | src/opt/help/TermReplacer.kt:299 | each entry of the map is one of the pairs |
| TermReplacing.ReplaceAgreesWhenMentioned | src/opt/help/TermReplacer.kt:296-300 | when the operation mentions every term to replace, the replacement as written is the documented one |
| TermReplacing.MentionedAll | src/opt/help/TermReplacer.kt:297 | the filter keeps everything when every term is mentioned |
| TermReplacing.ZipIsMentionedPairs | src/opt/help/TermReplacer.kt:297-299 | with every term mentioned, the zip as written gives the intended pairs |
| TermReplacing.ReplaceNothing | src/opt/help/TermReplacer.kt:30 | empty lists replace nothing |
| TermReplacing.ShiftedPairing | src/opt/help/TermReplacer.kt:296-300 | replacing `[a, b]` with `[x, y]` in `return b` gives `return x` as written but `return y` as documented |
| Optimization.OptimizeAll | src/opt/Opt.kt:34 | succeeds exactly when every function optimizes; then it has one result per function, in order, each that function optimized |
| Optimization.Perform | src/opt/Opt.kt:32-39 | the module keeps its number and order of functions, each replaced by its optimized form |
| Optimization.RoundIsConstFoldThenDeadTermElim | src/opt/Opt.kt:26-59 | a round clears the change log, then runs `ConstFold` and then `DeadTermElim`, each followed by `finish`, and fails when one of them does |
| Optimization.RepeatedStep | src/opt/Opt.kt:49-65 | below the threshold, and not stopped on an unchanged canvas, the stage runs one round and goes on with the next repetition |
| Optimization.AtMostThreeRounds | src/opt/Opt.kt:49-70 | the stage runs at least one and at most three rounds, and stops before the third only when the last round changed nothing |
| Optimization.FirstRoundAlwaysRuns | src/opt/Opt.kt:54 | the first round runs even when the canvas is unchanged |
| Optimization.StopsWhenUnchanged | src/opt/Opt.kt:50-56 | a later repetition finding the canvas unchanged, or the threshold reached, returns the canvas as it is |
| PyConstFolding.Repeat | nevec/opt/const.py:183-184 | `s * n` has `n` copies of `s`, and none when `n` is not positive |
| PyConstFolding.Lower | nevec/opt/const.py:133 | `lower()` keeps the length and lowers each letter in place |
| PyConstFolding.BinOpMarksOperands | nevec/opt/const.py:143-277 | a binary fold of result type `INT`, `FLOAT` or `BOOL` marks both operand symbols before it evaluates, dispatching numbers to arithmetic and booleans to comparison; any other type marks nothing and raises `ValueError` |
| PyConstFolding.UnOpDispatch | nevec/opt/const.py:52-63 | a unary fold dispatches numbers to negation, booleans to the tests and `STR` to `show`, raises `ValueError` otherwise, and marks the operand exactly when it reaches a literal |
| PyConstFolding.NumFoldIgnoresOperator | nevec/opt/const.py:65-78 | the numeric unary fold negates whatever its operator |
| PyConstFolding.BoolFoldRules | nevec/opt/const.py:80-113 | `NOT` negates a boolean, `IS_ZERO` tests an integer against 0, `IS_NIL` and `IS_NOT_NIL` are opposite tests of the static type, and other operators raise `NotImplementedError` after marking |
| PyConstFolding.IsZeroIsFalsy | nevec/opt/const.py:94-98 | on integers and booleans `IS_ZERO` holds exactly when `not` gives true |
| PyConstFolding.ArithTable | nevec/opt/const.py:176-209 | exactly the nine listed operators fold; any other raises `NotImplementedError` |
| PyConstFolding.TrueDivision | nevec/opt/const.py:186-187 | `/` of two integers is their true quotient as a float, and a zero divisor raises `ZeroDivisionError` |
| PyConstFolding.AddSubRoundTrip | nevec/opt/const.py:177-181 | on integers, subtracting what was added gives the first operand back |
| PyConstFolding.ShiftRoundTrip | nevec/opt/const.py:189-193 | shifting left then right by the same count gives the integer back; a negative count raises `ValueError` |
| PyConstFolding.ExactQuotient | nevec/opt/const.py:192-193 | the step of the shift round trip: only `a` has `a * p` between its own multiples of `p` |
| PyConstFolding.BooleanBitwise | nevec/opt/const.py:195-202 | bitwise and, xor and or of two booleans give the boolean `and`, `xor`, `or`, which agree with the integer operations on 0 and 1 |
| PyConstFolding.LexLessStrictTotal | nevec/opt/const.py:231 | string order is irreflexive, asymmetric and total |
| PyConstFolding.ComparisonConverse | nevec/opt/const.py:231 | `l < r` is `r > l`, `l <= r` is defined exactly when `r >= l` is, and `!=` negates `==` |
| PyConstFolding.IntTrichotomy | nevec/opt/const.py:231 | integers compare by value: `<`, `==`, `>` hold exactly when the integer relations do |
| PyConstFolding.StrTrichotomy | nevec/opt/const.py:227-231 | quoted strings compare by content, and exactly one of `<`, `==`, `>` holds |
| PyConstFolding.MixedComparison | nevec/opt/const.py:227-231 | ordering a string against a number or nil raises `TypeError`, while `==` gives false |
| PyConstFolding.ShowBooleans | nevec/opt/const.py:132-133 | `show` of a boolean is `true` or `false` in lower case |
| PyConstFolding.ShowStrings | nevec/opt/const.py:129-136 | `show` leaves a string as it is, and a string typed as a number fails to format with `ValueError` |
| PyConstFolding.ShowSmallIntsInjective | nevec/opt/const.py:129-130 | an integer of at most fourteen digits is shown in full decimal, so distinct ones show differently |
| PyConstFolding.ConcatFolds | nevec/opt/const.py:235-249 | the concatenation fold joins two strings, marks both operands, and adds two integers since `+` is applied without a type test |
| PyConstFolding.FoldedHoldsValue | nevec/opt/const.py:251-270 | with the boolean case reachable, the folded instruction defines the destination at the node's location with a literal holding the value, typed as the node unless boolean; only `None` fails |
| PyConstFolding.ComparisonFoldsToIntAsWritten | nevec/opt/const.py:254-265 | as written, the comparison `1 < 2` folds to the integer literal 1 typed `BOOL`, not to `True` |
| PyConstFolding.FoldedAgreesExceptBooleans | nevec/opt/const.py:254-265 | the written and the corrected `folded` differ exactly on booleans |
| PyConstFolding.Tac.Update | nevec/opt/const.py:15 | the instruction takes the folded one's symbol, expression and location |
| PyConstFolding.ConstFold.Emit | nevec/opt/const.py:17 | the instruction is appended to the output and nothing else changes |
| PyConstFolding.ConstFold.ElimIfDead | nevec/opt/const.py:19-20 | the symbol is offered for elimination, in order, and nothing else changes |
| PyConstFolding.ConstFold.Commit | nevec/opt/const.py:14-20 | the fold's marks are kept; on failure nothing else changes; on success `ctx` becomes the folded instruction, a new copy is emitted and the operands are offered in order |
| PyConstFolding.ConstFold.VisitBinOp | nevec/opt/const.py:6-20 | an operation with an operand that is not propagatable is emitted unchanged; otherwise the binary fold is committed |
| PyConstFolding.ConstFold.VisitConcat | nevec/opt/const.py:22-36 | the same for concatenation |
| PyConstFolding.ConstFold.VisitUnOp | nevec/opt/const.py:38-50 | the same for a unary operation, with its one operand |
| PyOptimizing.CleanupOnceAtEnd | nevec/opt/opt.py:14-29 | the result is the passes run in order, each on the previous one's output, and the symbol table is cleaned up exactly once, after the last pass |
| PyOptimizing.RunAllSequences | nevec/opt/opt.py:25-29 | running two lists one after the other is running their concatenation |
| PyOptimizing.EmptyListOnlyCleans | nevec/opt/opt.py:21-23 | an empty list returns the instructions unchanged after the cleanup |
| PyOptimizing.DefaultIsConstFold | nevec/opt/opt.py:7-19 | with no list given, constant folding runs once and then the table is cleaned up |
| Composing.LastTerms | src/ir/structure/compose/Junction.kt:82 | every compose's last term, in order, when none is empty; `NoSuchElementException` exactly when one is |
| Composing.Zip | src/ir/structure/compose/Zipping.kt:48 | pairs by index up to the shorter list |
| Composing.SinglesOf | src/ir/structure/compose/Zipping.kt:57-59 | one single-operation compose per pair, holding the callback's operation for that pair |
| Composing.FlattenAppend | src/ir/structure/compose/Compose.kt:68-72 | the operations of two lists of composes are those of each, in order |
| Composing.ReduceFlattens | src/ir/structure/compose/Junction.kt:81 | reducing a non-empty list with `merge` concatenates the operations in list order |
| Composing.ReduceOrNewFlattens | src/ir/structure/compose/Zipping.kt:60-66 | `reduceOrNull ?: new()` concatenates the operations, and an empty list gives none |
| Composing.MergeReceiverFirst | src/ir/structure/compose/Compose.kt:68-72 | `merge` puts the receiver's operations first, is associative, and has `new()` as identity |
| Composing.MergeLastTerm | src/ir/structure/compose/Compose.kt:68-86 | the last term of a merge is the argument's, or the receiver's when the argument is empty |
| Composing.ThenAppendsOne | src/ir/structure/compose/Compose.kt:35-92 | `then` appends one operation whose term becomes the last; `withLast` needs an operation and feeds it the last term |
| Composing.SingleAndNew | src/ir/structure/compose/Compose.kt:19-86 | a single compose's term is its operation's, and an empty one has none |
| Composing.JunctionThenSpec | src/ir/structure/compose/Junction.kt:76-85 | an empty junction throws `IllegalArgumentException`; otherwise it succeeds exactly when no compose is empty, and connecting gives all operations in order followed by the callback's operation on the last terms |
| Composing.JunctionJoinAppends | src/ir/structure/compose/Junction.kt:63-65 | `join` adds one compose at the end |
| Composing.ViewingThenSpec | src/ir/structure/compose/Viewing.kt:30-41 | either list empty throws; otherwise only the desired composes are merged, and the callback sees the desired then the viewed last terms |
| Composing.EachSpec | src/ir/structure/compose/Zipping.kt:47-69 | the composes of `a` then of `b`, then one operation per pair of last terms up to the shorter list; it fails exactly when a compose is empty |
| Composing.SinglesFlatten | src/ir/structure/compose/Zipping.kt:56-62 | the product has exactly the callback's operation per pair, in order |
| Composing.EachEmpty | src/ir/structure/compose/Zipping.kt:60-66 | two empty lists give an empty connection, not an error |
| Composing.ConnectionOrders | src/ir/structure/compose/Connection.kt:36-54 | `connect` is `a` then `b`; `plugInBetween` puts the given compose between them; `plugAtFront` puts it first |
| Providers.Terms.constructor | src/ir/lower/provide/Terms.kt:11 | the temporary counter starts at 0 |
| Providers.Terms.NewTemporary | src/ir/lower/provide/Terms.kt:16-24 | the new temporary is named `t`, has the asked type and the current id, and the counter moves on by one |
| Providers.Blocks.constructor | src/ir/provide/Blocks.kt:11 | the block counter starts at 0 |
| Providers.Blocks.NewBasic | src/ir/provide/Blocks.kt:16-22 | the new block is named `bb`, holds the given operations and has the current id, and the counter moves on by one |
| Providers.TwoTemporaries | src/ir/lower/provide/Terms.kt:16-24 | temporaries asked for one after the other are distinct, with consecutive ids |
| Lowering.Lower.constructor | src/ir/lower/Lower.kt:41-42 | lowering starts with fresh counters at 0 |
| Lowering.Lower.Perform | src/ir/lower/Lower.kt:44-50 | the module holds the lowered functions and the counters end where the specification says; a refused declaration is the stage's error |
| Lowering.Lower.VisitTops | src/ir/lower/Lower.kt:45-58 | one function per declaration in order; `Top.Empty` throws `IllegalArgumentException` |
| Lowering.Lower.VisitFun | src/ir/lower/Lower.kt:60-68 | the declarations merged into one new basic block of a function with the declaration's name; no declarations throws `UnsupportedOperationException`; one block id is used |
| Lowering.Lower.VisitDecls | src/ir/lower/Lower.kt:61-72 | the declarations lowered in order, agreeing with the specification and its counter |
| Lowering.Lower.VisitStmt | src/ir/lower/Lower.kt:74-86 | a statement lowers as specified: `print` adds a `Print` of the expression's last term |
| Lowering.Lower.VisitExpr | src/ir/lower/Lower.kt:88-100 | every expression lowers as the specification does, with the counter where it says; `Expr.Empty` throws `IllegalArgumentException` |
| Lowering.Lower.VisitUnOp | src/ir/lower/Lower.kt:102-139 | `show`, negation and `not` lower their operand first, then as specified |
| Lowering.Lower.VisitBinOp | src/ir/lower/Lower.kt:141-213 | both operands lower left to right before the operation; list concatenation throws `NotImplementedError` |
| Lowering.Lower.VisitTableLit | src/ir/lower/Lower.kt:240-256 | the keys lower, then the values, then the table is built from them, as specified |
| Lowering.Lower.VisitAll | src/ir/lower/Lower.kt:243-244 | a list of expressions lowers in order, as specified |
| Lowering.Lower.VisitInterpol | src/ir/lower/Lower.kt:262-291 | an interpolation lowers as specified; its closing string is one string constant |
| Lowering.Lower.VisitSome | src/ir/lower/Lower.kt:267-287 | an interpolated piece lowers as specified: the string, the shown expression, the rest, then two temporaries for the concatenations |
| Lowering.Lower.VisitUnary | src/ir/lower/Lower.kt:102-139 | a one-operand node adds one code into a new temporary, as specified |
| Lowering.Lower.VisitBinary | src/ir/lower/Lower.kt:141-213 | a two-operand node takes its temporary after both operands and adds one code, as specified |
| Lowering.Lower.VisitTable | src/ir/lower/Lower.kt:240-256 | the empty table, then the `TableSet`s, as specified |
| Lowering.Lower.NewConstOp | src/ir/lower/Lower.kt:300-312 | one constant into a new temporary, as specified |
| LoweringFacts.ConstWellFormed | src/ir/lower/Lower.kt:300-312 | a constant defines exactly its one new temporary |
| LoweringFacts.UnaryLayout | src/ir/lower/Lower.kt:102-139 | a one-operand node is the operand's code then one code from the operand's last term into the next temporary; it fails exactly when the operand has no code |
| LoweringFacts.UnaryWellFormed | src/ir/lower/Lower.kt:102-139 | a well-formed operand gives a well-formed node, one id further |
| LoweringFacts.BinaryLayout | src/ir/lower/Lower.kt:148-213 | a two-operand node is the left code, the right code, then one code from both last terms into the next temporary; it fails exactly when an operand has no code |
| LoweringFacts.BinaryWellFormed | src/ir/lower/Lower.kt:148-213 | well-formed operands in a row give a well-formed node |
| LoweringFacts.TableSetsRead | src/ir/lower/Lower.kt:248-254 | the `TableSet`s define nothing and read the table, a key and a value |
| LoweringFacts.TableSetsWellFormed | src/ir/lower/Lower.kt:243-256 | the keys and values in a row define their ids in order, and the `TableSet`s read only defined terms |
| LoweringFacts.TableSetsOf | src/ir/lower/Lower.kt:248-255 | `each` gives the keys' then the values' code, then one `TableSet` per pair |
| LoweringFacts.TableLayout | src/ir/lower/Lower.kt:246-256 | the table's code is the keys and values, then the empty table into the next temporary, then the `TableSet`s |
| LoweringFacts.TableWellFormed | src/ir/lower/Lower.kt:240-256 | well-formed keys and values give a well-formed table |
| LoweringFacts.SomeFirstLayout | src/ir/lower/Lower.kt:282-283 | the first half of an interpolation piece: the string, the shown expression and the rest, then their concatenation |
| LoweringFacts.ViewingLayout | src/ir/lower/Lower.kt:284-286 | the second half: the first's code, then its value concatenated with the viewed value |
| LoweringFacts.SomeLayout | src/ir/lower/Lower.kt:267-287 | a piece is the string, the shown expression, the rest, and two concatenations into the next two temporaries; it fails exactly when one part has no code |
| LoweringFacts.SomeOpsWellFormed | src/ir/lower/Lower.kt:267-287 | that code is well formed when its parts are |
| LoweringFacts.SomeWellFormed | src/ir/lower/Lower.kt:267-287 | a piece with well-formed parts lowers to well-formed code |
| LoweringFacts.ExprWellFormed | src/ir/lower/Lower.kt:88-260 | every expression that lowers defines the ids it took, in order, each before it is read |
| LoweringFacts.OperandWellFormed | src/ir/lower/Lower.kt:102-139 | the same for a one-operand node |
| LoweringFacts.TableLitWellFormed | src/ir/lower/Lower.kt:240-256 | the same for a table literal |
| LoweringFacts.TableLitLowers | src/ir/lower/Lower.kt:243-256 | a table literal lowers exactly when its keys and then its values do |
| LoweringFacts.TableStep | src/ir/lower/Lower.kt:240-256 | a table literal lowers only when its keys then values do, and then to the table built from their code |
| LoweringFacts.OperandsWellFormed | src/ir/lower/Lower.kt:148-213 | the same for a two-operand node |
| LoweringFacts.AllExprsWellFormed | src/ir/lower/Lower.kt:243-244 | a lowered list of expressions is well formed, one after the other |
| LoweringFacts.InterpolWellFormed | src/ir/lower/Lower.kt:262-291 | a lowered interpolation is well formed |
| LoweringFacts.ExprNonEmpty | src/ir/lower/Lower.kt:88-260 | a lowered expression leaves code behind, so it has a last term |
| LoweringFacts.InterpolNonEmpty | src/ir/lower/Lower.kt:262-291 | a lowered interpolation leaves code behind |
| LoweringFacts.SomePieceExprLowers | src/ir/lower/Lower.kt:267-277 | a piece that lowers has an expression that lowers, numbered after its string |
| LoweringFacts.SomePieceRestLowers | src/ir/lower/Lower.kt:267-287 | a piece that lowers has a rest that lowers, numbered from after its expression and the shown value |
| LoweringFacts.SomePieceLowersFrom | src/ir/lower/Lower.kt:267-287 | a piece whose expression and rest lower, lowers |
| LoweringFacts.SomeStep | src/ir/lower/Lower.kt:267-287 | a piece whose expression, shown expression and rest lower is the join of its string, the shown expression and the rest |
| LoweringFacts.SomePieceWellFormed | src/ir/lower/Lower.kt:267-287 | a lowered piece is well formed |
| LoweringFacts.PrintLayout | src/ir/lower/Lower.kt:79-86 | `print` is the expression's code then a `Print` of its value, failing exactly when the expression fails or leaves no code |
| LoweringFacts.StmtWellFormed | src/ir/lower/Lower.kt:74-86 | a lowered statement is well formed |
| LoweringFacts.DeclsWellFormed | src/ir/lower/Lower.kt:61-72 | one lowered node per declaration, together well formed |
| LoweringFacts.FunLayout | src/ir/lower/Lower.kt:60-68 | no declarations throws `UnsupportedOperationException`; otherwise the function has the declaration's name and one block `bb` with the next block id holding all declarations' code |
| LoweringFacts.FunWellFormed | src/ir/lower/Lower.kt:60-68 | a lowered function's block defines the handed-out temporaries in order, each before its use |
| LoweringFacts.NamesFollowCons | src/ir/lower/Lower.kt:45 | a function named as its declaration, before functions named as theirs, keeps the names in order |
| LoweringFacts.TopsBlocks | src/ir/lower/Lower.kt:45-58 | lowered declarations advance the block counter by their number |
| LoweringFacts.TopsNames | src/ir/lower/Lower.kt:45-58 | lowered declarations give one function per declaration, with its name, in order |
| LoweringFacts.NamesFollowAt | src/ir/lower/Lower.kt:45-58 | when the names follow the declarations, the function at each position is named as the declaration there |
| LoweringFacts.EmptyTopRefused | src/ir/lower/Lower.kt:52-58 | a leading `Top.Empty` throws `IllegalArgumentException` |
| LoweringFacts.TopsCons | src/ir/lower/Lower.kt:45-58 | declarations that lower give the head declaration's function followed by the functions of the rest |
| LoweringFacts.HeadFunWellFormed | src/ir/lower/Lower.kt:60-68 | the head function is one well-formed block with the next block id |
| LoweringFacts.FunsWellFormedCons | src/ir/lower/Lower.kt:45 | well-formed functions in a row stay well formed with one more at the front |
| LoweringFacts.TopsWellFormed | src/ir/lower/Lower.kt:45-68 | the functions of lowered declarations are well formed from the given counters |
| LoweringFacts.PerformWellFormed | src/ir/lower/Lower.kt:41-50 | a lowered module has its functions in declaration order, blocks numbered from 0 and temporaries numbered from 0 across the module, each defined once and before it is read |
| LoweringLayout.ExprLowers | src/ir/lower/Lower.kt:88-260 | an expression lowers exactly when it holds no `Empty` node and no list concatenation, from any counter |
| LoweringLayout.OperandLowers | src/ir/lower/Lower.kt:102-139 | the operand lowers exactly when it is lowerable, and then so does the node |
| LoweringLayout.OperandsLower | src/ir/lower/Lower.kt:148-213 | both operands lower exactly when lowerable, and then so does the node |
| LoweringLayout.TableLowers | src/ir/lower/Lower.kt:240-256 | a table literal lowers exactly when it is lowerable |
| LoweringLayout.AllLower | src/ir/lower/Lower.kt:243-244 | a list lowers exactly when each expression is lowerable |
| LoweringLayout.InterpolLowers | src/ir/lower/Lower.kt:262-291 | an interpolation lowers exactly when each of its expressions is lowerable |
| LoweringLayout.SomePieceLowersOnlyIf | src/ir/lower/Lower.kt:267-287 | a piece that lowers has a lowerable expression and rest |
| LoweringLayout.SomePieceLowersIf | src/ir/lower/Lower.kt:267-287 | a piece with a lowerable expression and rest lowers |
| LoweringLayout.OperatorMappingInjective | src/ir/lower/Lower.kt:148-213 | two operators lower to the same code kind exactly when they are the same operator |
| LoweringLayout.BinaryExprLayout | src/ir/lower/Lower.kt:148-213 | a binary node lowers exactly when both operands do, to the left code, the right code, then one code of the operator's kind into the next temporary |
| LoweringLayout.ListConcatRefused | src/ir/lower/Lower.kt:207-209 | list concatenation is always refused, with `NotImplementedError` once both operands are lowered |
| LoweringLayout.EmptyRefused | src/ir/lower/Lower.kt:97-99 | an `Empty` expression throws `IllegalArgumentException` |
| LoweringLayout.EmptyTopProgramRefused | src/ir/lower/Lower.kt:52-58 | a program whose first declaration is a `Top.Empty` throws `IllegalArgumentException` |
| LoweringLayout.UnaryExprLayout | src/ir/lower/Lower.kt:102-139 | a one-operand node lowers exactly when its operand does, to its code then one code of its kind into the next temporary |
| LoweringLayout.LiteralLayout | src/ir/lower/Lower.kt:215-308 | a literal is one constant of its value into the next temporary, of its type and on its line |
| LoweringLayout.StrLayout | src/ir/lower/Lower.kt:236-298 | a string literal is stored between exactly one pair of quotes around its trimmed text |
| LoweringLayout.QuotedOnceIdempotent | src/ir/lower/Lower.kt:296 | quoting an already quoted string changes nothing |
| LoweringLayout.AllCount | src/ir/lower/Lower.kt:243-244 | one lowered node per expression |
| LoweringLayout.TableSetsShape | src/ir/lower/Lower.kt:246-255 | from well-formed keys and values, the table is built: their code, then the empty table into the next temporary, then one `TableSet` per key and value paired by index up to the shorter list |
| LoweringLayout.PrintStmtLayout | src/ir/lower/Lower.kt:79-86 | `print` lowers exactly when its expression does, adding a `Print` of its value |
| Decimal.NatToString | src/ir/rendition/names/Names.kt:27 | at least one decimal digit, and a leading zero exactly for zero |
| Decimal.IntToString | src/ir/rendition/names/Names.kt:27 | a leading `-` exactly for negative numbers |
| Decimal.NatToStringRoundTrip | src/ir/rendition/names/Names.kt:27 | reading the digits back gives the number |
| Decimal.NatToStringInjective | src/ir/rendition/names/Names.kt:27 | different naturals render differently |
| Decimal.IntToStringInjective | src/ir/rendition/names/Names.kt:27 | different integers render differently |
| Operators.From | src/ast/hierarchy/binop/operator/Operator.kt:95-112 | there is an operator exactly for an arithmetic, bitwise or comparison token kind, and never a concatenation |
| Operators.FromTable | src/ast/hierarchy/binop/operator/Operator.kt:95-112 | each of the fifteen operator tokens maps to the operator of the same name, and every other kind to none |
| Operators.RangesDisjoint | src/ast/hierarchy/binop/operator/Operator.kt:107-109 | the three ranges are disjoint, so the order of the tests does not matter |
| TokKinds.ClampedFrom | src/tok/TokKind.kt:80-82 | the base's ordinal plus the result is the kind's ordinal |
| TokKinds.StmtStarters | src/tok/TokKind.kt:21-44 | the statement starters are exactly the keywords from `else` to `while` |
| TokKinds.ExprStarters | src/tok/TokKind.kt:25-51 | the expression starters are exactly `(`, `[`, the literal kinds and the keywords up to `with` |
| TokKinds.IsInBetweenBounds | src/tok/TokKind.kt:67-69 | the range includes its ends and is empty when the bounds are reversed |
| Toks.FindTok | src/lex/Toks.kt:93-98 | no operator for an empty lexeme or one longer than three, and a found kind is never `ID`, `ERR` or `EOF` |
| Toks.FindKeyword | src/lex/Toks.kt:12-100 | a keyword's kind is never `ID`, `EOF` or `ERR` |
| Toks.OneCharKeyInverts | src/lex/Toks.kt:42-108 | the one-character key of a kind is exactly the character the table maps to it |
| Toks.TwoCharKeyInverts | src/lex/Toks.kt:63-108 | the same for the two-character table |
| Toks.ThreeCharKeyInverts | src/lex/Toks.kt:77-108 | the same for the three-character table |
| Toks.OperatorRoundTrip | src/lex/Toks.kt:93-105 | `findTok` finds a kind for a lexeme exactly when `lexemeOf` gives that lexeme for the kind |
| Toks.MaxTokLenIsLongest | src/lex/Toks.kt:10-80 | every operator lexeme has one to three characters, and `<<=` has three |
| Toks.KeywordExamples | src/lex/Toks.kt:12-40 | `let` and `band` are keywords; `puts` and `Let` are not |
| Toks.NoOperatorStartsBlank | src/lex/Toks.kt:42-98 | no operator lexeme starts with a blank |
| CharCursor.Chars.constructor | src/file/contents/Chars.kt:6-7 | the cursor starts at the first character of the text |
| CharCursor.Chars.Peek | src/file/contents/Chars.kt:12-14 | the character under the cursor exactly when one remains, and nothing at the end |
| CharCursor.Chars.PeekN | src/file/contents/Chars.kt:20-25 | the next `n` characters exactly when that many remain |
| CharCursor.Chars.Next | src/file/contents/Chars.kt:30-32 | returns what `peek` gave and moves past it; at the end nothing moves |
| Interpolation.InterpolState.constructor | src/lex/interpol/InterpolState.kt:28-29 | the state starts `NORMAL` at depth 0 |
| Interpolation.InterpolState.WasInInterpol | src/lex/interpol/InterpolState.kt:43-48 | reports whether the state was `AFTER_INTERPOL` and leaves it `NORMAL`, the depth unchanged |
| Interpolation.InterpolState.DeepenInterpol | src/lex/interpol/InterpolState.kt:62-68 | deepens by one exactly below depth 255; at 255 it refuses and nothing changes |
| Interpolation.InterpolState.EndInterpol | src/lex/interpol/InterpolState.kt:73-76 | the state becomes `AFTER_INTERPOL` and the depth drops by one |
| Interpolation.InterpolState.Update | src/lex/interpol/InterpolState.kt:81-87 | the state becomes `NORMAL`, the depth unchanged |
| Relexing.Merge | src/lex/relex/Relex.kt:48-52 | merges exactly `NOT`,`IN` into `NOT_IN` and `IS`,`NOT` into `IS_NOT`; every other pair is left alone |
| Relexing.FlushSpec | src/lex/relex/Relex.kt:37-42 | a merged pair yields the merged token and an empty peephole; otherwise the left token, keeping the right one |
| Relexing.Relex.constructor | src/lex/relex/Relex.kt:17 | the peephole starts empty |
| Relexing.Relex.CanFlush | src/lex/relex/Relex.kt:54 | true exactly when the peephole holds two tokens |
| Relexing.Relex.Push | src/lex/relex/Relex.kt:33-35 | appends the token to the peephole, which never holds more than two |
| Relexing.Relex.Flush | src/lex/relex/Relex.kt:37-42 | returns the token and keeps the peephole that `FlushSpec` gives for the two tokens held |
| Relexing.Relex.Drop | src/lex/relex/Relex.kt:44-46 | keeps only the last token |
| Relexing.FlushPassesThrough | src/lex/relex/Relex.kt:48-52 | a pair whose left token is neither `not` nor `is` passes the left token through and keeps the right one |
| Relexing.MergeExamples | src/lex/relex/Relex.kt:6-15 | `not in` becomes `NOT_IN`, `is not` becomes `IS_NOT`, and `is` before a newline stays `IS` |
| TokenStream.Start | src/lex/Lex.kt:21-26 | a fresh lexer meets the stream invariant for every text |
| TokenStream.PushUntil | src/lex/relex/Relex.kt:24-31 | fills the peephole to two, keeping what waited, and each pushed token moved the cursor unless it is `EOF` |
| TokenStream.Next | src/lex/relex/Relex.kt:19-22 | keeps the invariant, never moves the cursor back, and a waiting `EOF` comes out as `EOF` |
| TokenStream.NextFromEmpty | src/lex/relex/Relex.kt:19-42 | from an empty peephole, `consume` lexes two tokens and flushes that pair |
| TokenStream.NextFromWaiting | src/lex/relex/Relex.kt:19-42 | with one token waiting, `consume` lexes one more and flushes the pair |
| TokenStream.NextProgresses | src/lex/Lex.kt:35-43 | every token but `EOF` moves the cursor forward or consumes the waiting `EOF`, so `accumToks` ends |
| TokenStream.TokensFromEndAtEof | src/lex/Lex.kt:35-43 | the accumulated stream ends with an `EOF` and holds no earlier one |
| TokenStream.Tokens | src/lex/Lex.kt:31-33 | `toks()` of any text ends with its only `EOF` |
| TokenStream.EmptyText | src/lex/Lex.kt:49-55 | an empty text lexes to a lone `EOF` with an empty lexeme |
| LexSpec.Peek | src/lex/Lex.kt:259-261 | a character exactly when the cursor is before the end of the text |
| LexSpec.PeekN | src/lex/Lex.kt:263-265 | `n` characters exactly when that many remain |
| LexSpec.Advance | src/lex/Lex.kt:188-195 | moves past one character and captures it; at the end nothing changes |
| LexSpec.TakeWhile | src/lex/Lex.kt:225-233 | stops at the first character failing the predicate or at the end, having captured exactly the characters it passed, all of which satisfy it |
| LexSpec.Capture | src/lex/Lex.kt:239-244 | advances exactly `n` characters and captures them |
| LexSpec.SkipComment | src/lex/Lex.kt:218-223 | moves forward only, within the text, leaving the interpolation state alone |
| LexSpec.SkipWs | src/lex/Lex.kt:202-216 | moves forward only, and does nothing right after an interpolation |
| LexSpec.Interpol | src/lex/Lex.kt:105-126 | gives `INTERPOL` or an error; below depth 255 it moves past the `#{`, and the state stays well formed |
| LexSpec.StringRest | src/lex/Lex.kt:85-103 | gives `STR`, `INTERPOL` or an error, and moves forward unless at the end or at the depth limit |
| LexSpec.String | src/lex/Lex.kt:78-103 | gives `STR`, `INTERPOL` or an error, and moves forward when it captures the opening quote |
| LexSpec.EndInterpol | src/lex/Lex.kt:128-137 | consumes the `}`; inside an interpolation it gives `INTERPOL_SEP`, one level shallower and marked after an interpolation, and outside one exactly the `'}' outside string interpolation` error |
| LexSpec.Number | src/lex/Lex.kt:139-158 | gives `INT`, `FLOAT` or an error, moving forward only |
| LexSpec.Id | src/lex/Lex.kt:160-165 | gives a keyword kind or `ID`, never `EOF` nor an error |
| LexSpec.SimpleTok | src/lex/Lex.kt:167-179 | always consumes at least one character, whether it finds an operator or reports `invalid character` |
| LexSpec.Newline | src/lex/Lex.kt:181-186 | consumes the newline and gives `NEWLINE` |
| LexSpec.Dispatch | src/lex/Lex.kt:61-75 | off the end and outside an interpolation resume, always consumes a character and never gives `EOF` |
| LexSpec.LexNext | src/lex/Lex.kt:49-76 | `EOF` exactly when only whitespace and comments remain, and then at the end; any other token moves the cursor |
| Lexing.Lex.constructor | src/lex/Lex.kt:21-26 | a fresh cursor at 0, a fresh interpolation state and an empty peephole |
| Lexing.Lex.Toks | src/lex/Lex.kt:31-33 | returns the token stream `TokensFrom` describes from the lexer's state |
| Lexing.Lex.AccumToks | src/lex/Lex.kt:35-43 | appends to the accumulator the tokens up to and including the first `EOF` |
| Lexing.Lex.Next | src/lex/Lex.kt:45-47 | returns the token and leaves the state that `TokenStream.Next` gives |
| Lexing.Lex.PushUntil | src/lex/relex/Relex.kt:24-31 | fills the peephole as `TokenStream.PushUntil` says |
| Lexing.Lex.LexNext | src/lex/Lex.kt:49-76 | returns the token and leaves the state that `LexSpec.LexNext` gives |
| Lexing.Lex.String | src/lex/Lex.kt:78-103 | follows `LexSpec.String` |
| Lexing.Lex.Interpol | src/lex/Lex.kt:105-126 | follows `LexSpec.Interpol` |
| Lexing.Lex.EndInterpol | src/lex/Lex.kt:128-137 | follows `LexSpec.EndInterpol` |
| Lexing.Lex.Number | src/lex/Lex.kt:139-158 | follows `LexSpec.Number` |
| Lexing.Lex.Id | src/lex/Lex.kt:160-165 | follows `LexSpec.Id` |
| Lexing.Lex.SimpleTok | src/lex/Lex.kt:167-179 | follows `LexSpec.SimpleTok` |
| Lexing.Lex.Newline | src/lex/Lex.kt:181-186 | follows `LexSpec.Newline` |
| Lexing.Lex.Advance | src/lex/Lex.kt:188-195 | returns what `peek` gave and moves as `LexSpec.Advance` says |
| Lexing.Lex.Sync | src/lex/Lex.kt:197-200 | clears the captured lexeme and changes nothing else |
| Lexing.Lex.SkipWs | src/lex/Lex.kt:202-216 | follows `LexSpec.SkipWs` |
| Lexing.Lex.SkipComment | src/lex/Lex.kt:218-223 | follows `LexSpec.SkipComment` |
| Lexing.Lex.TakeWhile | src/lex/Lex.kt:225-233 | follows `LexSpec.TakeWhile` |
| Lexing.Lex.Capture | src/lex/Lex.kt:239-244 | follows `LexSpec.Capture` |
| Lexing.Lex.Match | src/lex/Lex.kt:246-253 | true exactly when `check` holds, advancing only then |
| Lexing.Lex.NewTok | src/lex/Lex.kt:299-301 | a token of the given kind whose lexeme is the captured text |
| Lexing.Lex.IsAtEnd | src/lex/Lex.kt:283-285 | true exactly when the cursor is at the end of the text |
| Lexing.Lex.Check | src/lex/Lex.kt:275-277 | true exactly when the next character is the one given or the text is exhausted |
| Lexing.Lex.MatchSeq | src/lex/Lex.kt:271-273 | true exactly when the text continues with the given sequence |
| Lexing.Lex.IsOnDigit | src/lex/Lex.kt:291-293 | agrees with `LexSpec.IsOnDigit` on the lexer's state |
| Lexing.Lex.IsOnFloat | src/lex/Lex.kt:295-297 | agrees with `LexSpec.IsOnFloat`: a `.` followed by a digit |
| Lexing.Lex.IsOnAlpha | src/lex/Lex.kt:287-289 | agrees with `LexSpec.IsOnAlpha`: a letter or `_` |
| Lexing.LexText | src/lex/Lex.kt:21-33 | `Lex(text).toks()` returns `TokenStream.Tokens(text)`, which ends with its only `EOF` |
| LexFacts.UnterminatedString | src/lex/Lex.kt:85-99 | a string body with no closing quote and no `#{` consumes the rest of the text and is the `unterminated string` error |
| LexFacts.TerminatedString | src/lex/Lex.kt:85-103 | a body up to its first quote becomes one `STR` token whose lexeme runs through that quote |
| LexFacts.EmptyInterpolation | src/lex/Lex.kt:105-126 | `#{}` is the `empty string interpolation` error, consumes all three characters, and leaves the depth unchanged with the string to resume |
| LexFacts.InterpolationAtEnd | src/lex/Lex.kt:105-126 | a `#{` that ends the text is also the `empty string interpolation` error, since `check` is true at the end |
| LexFacts.InterpolationTooDeep | src/lex/Lex.kt:105-110 | at depth 255 the interpolation is refused with the depth error and nothing is consumed |
| LexFacts.BraceOutsideInterpolation | src/lex/Lex.kt:128-133 | a `}` at depth 0 is the `'}' outside string interpolation` error |
| LexFacts.BlankText | src/lex/Lex.kt:49-55 | an empty or all-blank text lexes first to an `EOF` at its end |
| LexExamples.SkipBlanks | src/lex/Lex.kt:202-216 | blanks followed by neither a blank nor `-` are skipped and nothing more |
| LexExamples.Word | src/lex/Lex.kt:160-165 | a maximal run of letters is one token, the keyword's kind or `ID`, whose lexeme is the run |
| LexExamples.WordAfterBlanks | src/lex/Lex.kt:49-76 | blanks and then a word lex to that word's token |
| LexExamples.BlanksToEnd | src/lex/Lex.kt:49-55 | blanks up to the end of the text lex to `EOF` |
| LexExamples.BlankIsInvalid | src/lex/Lex.kt:167-172 | a blank that whitespace skipping left behind is an `invalid character` error |
| LexExamples.Step0 | src/lex/Lex.kt:49-76 | on the example text `a not in b` (a shorter form of the relex test's input), `lexNext`'s first token is `ID a` |
| LexExamples.Step1 | src/lex/Lex.kt:49-76 | then `NOT` |
| LexExamples.Step2 | src/lex/Lex.kt:49-76 | then `IN` |
| LexExamples.Step3 | src/lex/Lex.kt:49-76 | then `ID b` |
| LexExamples.Step4 | src/lex/Lex.kt:49-76 | then `EOF` at the end |
| LexExamples.Step5 | src/lex/Lex.kt:49-76 | and `EOF` again when asked once more |
| LexExamples.RelexFirst | test/lex/LexTest.kt:147-154 | the peephole passes `a` through and keeps `not` waiting |
| LexExamples.RelexNotIn | test/lex/LexTest.kt:147-154 | the waiting `not` and the next `in` come out as one `NOT_IN` token |
| LexExamples.CommentSkipped | src/lex/Lex.kt:211-223 | one `--` comment is skipped together with its line break, and the blanks after it are not |
| LexExamples.IndentAfterComment | src/lex/Lex.kt:202-216 | so a blank that indents the line after a comment is an `invalid character` error |
| Naming.Fresh | src/ir/rendition/names/Names.kt:25-30 | the new name starts with the desired name, is longer than it, and is recorded for the id alone |
| Naming.Step | src/ir/rendition/names/Names.kt:21-23 | the returned name is the one recorded for the id; every earlier name stays, and only the id is added |
| Naming.Run | src/ir/rendition/names/Names.kt:21-23 | one name per request, and no recorded name is lost or changed |
| Naming.Names.constructor | src/ir/rendition/names/Names.kt:15-16 | both maps start empty |
| Naming.Names.FindNameFor | src/ir/rendition/names/Names.kt:21-23 | returns the name and leaves the maps that `Step` gives |
| Naming.Names.FindNewSuitableName | src/ir/rendition/names/Names.kt:25-30 | returns the name and leaves the maps that `Fresh` gives |
| Naming.Names.FindDiscriminator | src/ir/rendition/names/Names.kt:32-42 | the stored discriminator, or 0 for a first request; the stored one then counts up by one, and the names are untouched |
| Naming.Names.Update | src/ir/rendition/names/Names.kt:44-46 | the next discriminator becomes one past the previous one, and nothing else changes |
| Naming.SameIdSameName | src/ir/rendition/names/Names.kt:18-23 | asking again for a named id, with any desired name, returns its first name and changes nothing |
| Naming.NameIsWrittenOnce | src/ir/rendition/names/Names.kt:21-30 | after a series of requests, each id is recorded under the name its first request returned |
| Naming.SuffixesCountUp | src/ir/rendition/names/Names.kt:32-46 | new ids asking for one desired name get consecutive discriminators from the stored one, which ends up moved on by the number of ids |
| Naming.RunSameDesiredCons | src/ir/rendition/names/Names.kt:21-46 | the first of some new ids gets the desired name with the stored discriminator, which counts up by one; the other ids follow from there |
| Naming.OtherCountersKept | src/ir/rendition/names/Names.kt:44-46 | requests for one desired name leave every other desired name's counter as it was |
| Naming.FreshAfterFirst | src/ir/rendition/names/Names.kt:25-30 | naming one new id records no other id, so the remaining new ids are still unnamed |
| Naming.CountsUpAt | src/ir/rendition/names/Names.kt:27 | in names that count up from a base, the one at index `i` is the desired name with discriminator base plus `i` |
| Naming.DistinctWithinDesired | src/ir/rendition/names/Names.kt:6-9 | new ids asking for the same desired name never share a name |
| Naming.CountingUpIsInjective | src/ir/rendition/names/Names.kt:27 | names counted up from one base are pairwise different |
| Naming.SuffixInjective | src/ir/rendition/names/Names.kt:27 | one desired name gives the same name with two discriminators only when they are equal |
| Naming.DesiredNamesCollide | src/ir/rendition/names/Names.kt:6-42 | across desired names the promise of uniqueness fails: the eleventh new `t` and the first `t1` are both `t10` |
| Naming.CollisionFromEmpty | src/ir/rendition/names/Names.kt:6-42 | that collision is reachable from empty maps after ten requests for `t` |
| Naming.RunNamesOnly | src/ir/rendition/names/Names.kt:21-30 | the ids named after a series of requests are exactly those named before plus those requested |
| CharCursor.Chars.Remaining | src/file/contents/Chars.kt:34-36 | the characters left and the cursor together make up the whole text |
| Interpolation.InterpolState.IsInInterpol | src/lex/interpol/InterpolState.kt:34-36 | inside an interpolation exactly when the depth is above 0 |
| Interpolation.InterpolState.IsAfterInterpol | src/lex/interpol/InterpolState.kt:55 | true exactly when the state is `AFTER_INTERPOL`, changing nothing |

## Left out

- InferBothTypes.HaveSameArity: the source's `require(areApplied())` throws `IllegalArgumentException` on a pair that is not both `Applied`; the model makes that a precondition instead. `Unify` (src/infer/unify/Unify.kt:136-145, 174-176) calls it only once `canBeUnified` holds and `a` is `Applied`, which makes `b` `Applied` too, so the throwing path is never reached from the modelled core.
- InferBothTypes.HaveSamePrimKind: likewise, `require(arePrim())` becomes a precondition; `Unify` (src/infer/unify/Unify.kt:189-190) calls it only once `canBeUnified` holds and `a` is `Prim`.
- TypeBothTypes.PickHinted: likewise, `require(eitherIsHinted())` becomes a precondition; its one caller (src/infer/unify/Unify.kt:126-127, 165) is reached only when `eitherIsHinted` holds.
- Lowering.Lower.VisitExpr, and every other visit of `Lowering.Lower`: when a node is refused, the contract states the error but not the value the id counter is left at. The source throws there, and no caller reads the counter afterwards.
- Providers.Terms.NewTemporary and Providers.Blocks.NewBasic: the counters are unbounded. After 2^31 ids, Kotlin's `Int` would wrap around.
- Naming.Names.FindDiscriminator: the discriminator is unbounded. The same 32-bit wrap-around is not modelled.
- Lowering.PairCallback: for fewer than two terms it gives `Op.Dummy`. `Junction.then` and `Viewing.then` always hand the callback two terms, so that branch is never taken.
- Locations (`Loc`, spans, `loc.copy()`, `loc.newline()`): tokens carry only their kind and lexeme, and syntax nodes carry only their line. `Combine.into` joins the two lexemes with one space instead of re-reading the source span.
- LexSpec.IsLetter, LexSpec.IsDigit and LexSpec.IsInsignificant: Kotlin's `Char.isLetter` and `Char.isDigit` accept all of Unicode, but the model accepts ASCII letters and digits only. `util/extension/CharExtension` is not part of this model, so `isInsignificant` is taken to be space, tab and carriage return.
- Floating point: `Float` and `Double` values are symbolic. Arithmetic on them, `%.14g` / `{:.14g}` formatting, Python's `str`/`repr` of floats, and the `chance/*` epsilon comparisons are given as host functions (the `FloatFormat` and `Host` parameters). Nothing is stated about their results.
- `Canvas.isUnchanged`, `changeless`, `finish` and `finalized`: `Opt.kt` calls them, but `Canvas.kt` does not define them. They are parameters, the `CanvasHooks` record, so the driver is proved for any such hooks.
- The `IdSystem` parameter of `Canvas`: `IdSystem.kt` is not part of this model, and no modelled pass reads it.
- `nevec/ir/ir.py` and `nevec/opt/passes.py` are not part of this model:
  - `PyIr` declares only what `const.py` reads and builds;
  - `Tac.update` is taken to copy all three fields;
  - `elim_if_dead` calls are recorded in order rather than performed;
  - `is_propagatable` is a parameter;
  - a pass's own `optimize` and the symbol table's `cleanup` are parameters of the driver.
- PyConstFolding.ConstFold.Commit: a boolean result is committed as the corrected `IBool` literal (the `nevec/opt/const.py:254-265` row under Findings). As written, `folded` gives an `IInt` of 0 or 1 typed `BOOL`; `ComparisonFoldsToIntAsWritten` and `FoldedAgreesExceptBooleans` state that difference.
- PyConstFolding.ConstFold.VisitBinOp: comparisons and `&`, `|`, `^` on booleans fold through the corrected `folded`, so they yield an `IBool` where `const.py` as written yields an `IInt` typed `BOOL`.
- PyConstFolding.ConstFold.VisitUnOp: `BOOL`-typed unary folds (`not`, the zero test, the nil tests) go through the corrected `folded` too, so they yield an `IBool` where `const.py` as written yields an `IInt` typed `BOOL`.
- `fold_comparison`'s `eval` of a formatted string is modelled as the comparison it evaluates, on values. A non-comparison operator there is an error.
- PyOptimizing: the driver works on values. The instruction list and the symbol table that `opt.py` mutates in place are passed from pass to pass, so aliasing is not modelled.
- Interpreters, register allocation, bytecode emission, the parser, type checking, diagnostics, pretty printers and the command-line driver: outside the modelled core.

## Findings

| source | as written | input that shows it | evidently intended | confidence | as-written member | corrected member |
|---|---|---|---|---|---|---|
| src/opt/help/TermReplacer.kt:296-300 | `replacementMap` first keeps only the terms to replace that occur in the operation, then zips them with the full list of new terms, so the pairs shift whenever an earlier term is absent | replacing `[a, b]` with `[x, y]` in `return b` gives `return x` | each term to replace pairs with the new term at its own position, as the doc comment at lines 14-31 describes (`return y`) | not executed | TermReplacing.ShiftedPairing | TermReplacing.ReplaceIntendedPairs |
| nevec/opt/const.py:254-265 | `folded` matches `int()` before `bool()`, and Python's `bool` is a subclass of `int`, so a boolean result becomes an `IInt` | the comparison `1 < 2` folds to `IInt(1)` typed `BOOL` | a boolean result becomes an `IBool` literal | not executed | PyConstFolding.ComparisonFoldsToIntAsWritten | PyConstFolding.FoldedHoldsValue |
