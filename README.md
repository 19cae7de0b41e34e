# A verified model of the LP toolkit's core

This project models the deterministic core of a small linear-programming toolkit. It covers five pieces, all built on one shared algebra.

- **Numbers and expressions.** A number is a tagged value, FLOAT or INTEGER. A linear expression is a sparse map from variables to coefficients, plus a constant. The model includes the in-place operators `+=`, `-=`, `*=`, `/=`, `GetCoeffOf`/`SetCoeffOf`, substitution of a variable by an expression, equality and `ToString`.
- **The text front end.** A character-level lexer turns text into position-annotated tokens. A token-level parser then builds the objective, the constraints and the integer declaration.
- **The LP transformations.** These are fresh-name generation, standard form, slack form, the two sanity checks, `Pivot`, `needInitialization` and the dual program.
- **The Gomory cut** built by the integer model.
- **Two text formats.**
  - The whitespace-field line reader of the solver's `ParseFile`.
  - The MPS-to-text converter script, which renames variables to `x0, x1, …` and writes the objective, constraints and bounds.

Modelling choices:
- A FLOAT value is an exact `real` and an INTEGER value an `int`. Float rounding is not modelled.
- The number renderers `std::to_string`, `Num::ToString` and Python's `format(x, "f")` are opaque function parameters. So are `std::stof`/`std::stoi`, as partial functions returning `Option`.
- Where the source mutates state, the model does too:
  - `LPModel`, `ILPModel`, the MPS converter (`Converter`) and the shared name counters (`NameCounters`) are classes.
  - Their loops are methods with invariants.
  - Each such method is proved equal to a specification function (`StandardForm`, `SlackForm`, `PivotForm`, `DualForm`, `ModelOf`, `Load`, `Writes`, …). Lemmas then prove what the source promises about that function.
- An assertion failure or exception in the source is a `Failure` result, or a precondition where the source asserts on its own caller.

Modules:
- `Numbers` (num.dfy), `Variables` (variable.dfy), `Strings`, `Wrappers`, `Tokens`, `Models` and `Expressions` hold the shared algebra.
- `Lexing` (lexer.dfy) models `Lexer::Scan`.
- `Parsing` (parser.dfy) models `Parser::ParseExpression`.
- `ModelParsing` (model_parser.dfy) models the rest of the parser.
- `LinearPrograms` (lp.dfy), `IntegerPrograms` (ilp.dfy), `TextModels` (solver.dfy) and `MpsConversion` (mps.dfy) hold the remaining pieces.

Where the sources disagree:
- base.cc defines Variable `<` as "type first, then name". The header base.h defines it as `lhs.type <= rhs.type && lhs.name < rhs.name`. The model orders every `std::map`/`std::set` of variables by base.cc's order (`Variables.Less`). The header's variant is modelled as `Variables.HeaderLess`, with lemmas showing that it is not a strict weak order (see Findings).
- lp.h is an older header than lp.cc. It knows two counters and two name prefixes (`kBase = "base"`, `kSubstitution = "subst"`, lp.h:14-15), and `constraints_`/`type`. lp.cc (lines 6-7, 24, 30) also uses `kDual` and `kArtificial` and their counters, which are defined in a newer header that is not part of this model. The model follows lp.cc with four prefixes and four counters; the values `dual` and `artificial` of the two extra prefixes are assumptions (see Left out).

## Model

| member | source | states |
|---|---|---|
| Numbers.ZeroOf | base.h:74-77 | kIntZero/kFloatZero: the zero of a type has that type and value 0 |
| Numbers.OneOf | base.h:74-77 | kIntOne/kFloatOne: the one of a type has that type and value 1 |
| Numbers.IsZeroIsEitherZero | base.h:50-57 | `IsZero` holds exactly for the INTEGER zero and the FLOAT zero |
| Numbers.IsZeroValue | base.h:50-57 | a number is zero exactly when its value is 0, whatever its type |
| Numbers.NumEqualsIsIdentity | base.cc:16-29 | Num `==` holds iff type and value agree; numbers of different types are never equal |
| Numbers.TruncDivBounds | base.cc:76-78 | INTEGER `/` truncates toward zero: the remainder is smaller than the divisor in magnitude and has the dividend's sign |
| Numbers.BinaryOp | base.cc:33-90 | the result of a binary operation keeps the left operand's type |
| Numbers.Promote | base.cc:92-142 | promotion keeps the value and makes the left side INTEGER only when both sides are INTEGER |
| Numbers.CompoundPromotes | base.cc:92-142 | compound `+=`, `-=`, `*=` compute sum, difference and product of the values; the result is INTEGER iff both operands are |
| Numbers.DivideValue | base.cc:118-124 | `/=`: INTEGER by INTEGER is truncating division; any FLOAT operand gives the real quotient |
| Numbers.Neg | base.cc:158-163 | unary minus keeps the type and negates the value |
| Numbers.NumLess | base.cc:144-148 | Num `<` compares values across types: on two INTEGER or two FLOAT numbers it is the usual order, and an INTEGER is compared as its real value |
| Numbers.NumLessEq | base.cc:149-153 | Num `<=` compares values across types in the same way as `<` |
| Numbers.NumComparisonsAgree | base.cc:144-156 | `<` is the negation of the reversed `<=` (so `>` and `>=` are as expected), `<=` is `<` or equal values, and both are total and transitive |
| Numbers.TimesNonZero | base.cc:92-98 | a product of two non-zero numbers is non-zero |
| Variables.DefaultVariable | base.h:17-21 | the default-constructed variable is undefined |
| Variables.NamedVariable | base.h:22-23 | a variable built from a name and a type carries exactly that name and type (FLOAT by default) |
| Variables.NamedVariableIsUndefinedIffNamedSo | base.h:27 | `IsUndefined` holds exactly for the name "undefined" |
| Variables.VarEqualityIsIdentity | base.cc:3-9 | Variable `==` is equality of name and type; `!=` is its exact complement |
| Variables.LessIrreflexive | base.cc:11-14 | no variable is less than itself |
| Variables.LessTransitive | base.cc:11-14 | base.cc's order is transitive |
| Variables.LessTotal | base.cc:11-14 | any two distinct variables are ordered, so the order is total and consistent with `==` |
| Variables.LessAsymmetric | base.cc:11-14 | no two variables are each less than the other |
| Variables.HeaderLessMergesTypes | base.h:41-43 | under the header's order the INTEGER and FLOAT variables of one name are distinct but incomparable |
| Variables.HeaderLessNotStrictWeak | base.h:41-43 | under the header's order ("a", INTEGER) is incomparable with ("b", FLOAT) and ("c", FLOAT), which are ordered: incomparability is not transitive, so it is not a strict weak ordering |
| Variables.Sorted | base.cc:11-14 | a set's iteration order lists exactly its elements, once each |
| Variables.SortedAscending | base.cc:11-14 | that iteration order is strictly ascending in base.cc's order |
| Strings.DigitChar | lp.cc:10-14 | a decimal digit is rendered as the character of that digit |
| Strings.NatToString | lp.cc:10-14 | `std::to_string` of a counter is a non-empty digit string without a leading zero |
| Strings.DecimalRoundTrip | lp.cc:10-14 | reading the rendered counter back as a decimal gives the counter |
| Strings.NatToStringInjective | lp.cc:10-14 | distinct counters render differently |
| Strings.PrefixedNamesDistinct | lp.cc:10-33 | prefix + counter names are equal iff the counters are |
| Strings.StrLessIrreflexive | base.cc:11-14 | `std::string <` is irreflexive |
| Strings.StrLessTransitive | base.cc:11-14 | `std::string <` is transitive |
| Strings.StrLessTotal | base.cc:11-14 | any two distinct strings are ordered one way or the other |
| Strings.StrLessAsymmetric | base.cc:11-14 | no two strings are each less than the other |
| Strings.IndexOf | solver.cc:7-14 | the first occurrence of the delimiter: it is the delimiter, and none occurs before it |
| Strings.SplitJoin | solver.cc:7-20 | getline pieces contain no delimiter, and joining them gives back the text whenever it does not end in the delimiter |
| Strings.JoinSplit | solver.cc:7-20 | splitting a join of delimiter-free pieces whose last piece is non-empty gives back the pieces |
| Strings.SplitTerminated | solver.cc:7-20 | splitting delimiter-free lines, each written with a terminator, gives back the lines |
| Strings.SplitFirst | solver.cc:7-14 | the first piece ends at the first delimiter |
| Strings.ConcatAppend | tools/mps_load.py:60-89 | concatenation distributes over appending sequences of writes |
| Tokens.TokenEqualityIsIdentity | parser.h:34-39 | tokens are equal iff type, lexim, start and end agree; `!=` is the exact negation |
| Tokens.PendingTestIsTypeTest | parser.cc:6-7 | for a well-formed pending token, testing `!= kUnknownTk` is testing that its type is not UNKNOWN |
| Models.NewConstraint | lp.h:23-57 | `Constraint(type)`: an equation with no variables, zero constant and zero compare |
| Models.NewObjective | lp.h:60-86 | `OptimizationObject(type)`: minimise the zero expression |
| Models.ConstraintEqualsIsIdentity | base.cc:273-277 | Constraint `==` holds iff expression, compare, equation type and data type agree |
| Expressions.SetCoeffOf | base.h:193-200 | after `SetCoeffOf`, the variable reads back the new coefficient, or the zero of its type when that is zero; the constant is unchanged |
| Expressions.SetCoeffOfOthers | base.h:193-200 | the variable is stored iff the coefficient is non-zero; other variables are untouched; no zero is ever stored |
| Expressions.ConstructorsCoefficients | base.h:183-186 | `Expression(v)` holds v with the one of its type and a zero constant; `Expression(n)` holds no variable and constant n |
| Expressions.GetCoeffOfAbsent | base.h:188-192 | in a map without stored zeros, a variable is absent iff its coefficient reads as zero, which is then the zero of its type |
| Expressions.TermCoefficients | base.cc:181-186 | `n * v` holds only v, with coefficient n (nothing if n is zero), and a zero constant |
| Expressions.MergeKeys | base.cc:188-215 | the entry loop of `+=`/`-=` leaves the constant alone |
| Expressions.MergeKeysCoefficient | base.cc:188-215 | each visited variable's coefficient becomes the combined value, stored only when non-zero; others are unchanged |
| Expressions.MergeKeysIsMerged | base.cc:188-215 | visiting the right side's variables in map order yields the merged coefficient map |
| Expressions.MergeDistinctKeys | base.cc:188-215 | any duplicate-free listing of the right side's variables yields the same merged map |
| Expressions.MergeKeysEntry | base.cc:188-215 | entry by entry, the loop's map equals the merged map |
| Expressions.MergeEntry | base.cc:190-196 | one pass of the loop computes one merge step |
| Expressions.MergeCoefficients | base.cc:188-215 | the entry loop computes the merge over the listed variables |
| Expressions.AddAssign | base.cc:188-198 | `+=` returns the sum expression |
| Expressions.SubAssign | base.cc:205-215 | `-=` returns the difference expression |
| Expressions.SumCoefficients | base.cc:188-198 | each coefficient and the constant of a sum is the sum of the operands'; no zero is stored; no new variable appears |
| Expressions.DifferenceCoefficients | base.cc:205-215 | each coefficient and the constant of a difference is the difference of the operands'; no zero is stored; no new variable appears |
| Expressions.UpdateEntries | base.cc:222-259 | the entry loop of `*=`/`/=` updates every stored coefficient and keeps the constant |
| Expressions.ScaleAssign | base.cc:222-237 | `*=` returns the scaled expression |
| Expressions.DivideAssign | base.cc:247-259 | `/=` by a non-zero number returns the quotient expression |
| Expressions.ScaledCoefficients | base.cc:222-237 | scaling multiplies every coefficient and the constant by m; scaling by zero leaves no variables and a zero constant; zeros are erased |
| Expressions.ScaledConstant | base.cc:222-237 | the scaled constant is the constant times m, and zero when m is zero |
| Expressions.ScaledKeys | base.cc:222-237 | scaling never adds a variable, stores no zero, and empties the map when m is zero |
| Expressions.ScaledEntry | base.cc:226-233 | each scaled coefficient is the stored product |
| Expressions.QuotientCoefficients | base.cc:247-259 | dividing divides every coefficient and the constant by m, erasing quotients that become zero; with a FLOAT operand the value is the real quotient |
| Expressions.ReplaceVariableWithExpression | base.cc:266-271 | substitution returns the replaced expression |
| Expressions.ReplacedCoefficients | base.cc:266-271 | after replacing v (coefficient c) by s, each coefficient is the old one (0 for v) plus c times s's; the constant gains c times s's constant; v disappears when s does not hold it |
| Expressions.ExprEqualsIsIdentity | base.cc:165-175 | Expression `==` (same constant, same keys, same coefficient per key) is equality |
| Expressions.TermTexts | base.h:202-208 | one rendered piece per listed variable |
| Expressions.TermTextAt | base.h:202-208 | the i-th piece is `<coeff> * <name> + ` |
| Expressions.ExprToStringShape | base.h:202-208 | `ToString` writes one `<coeff> * <name> + ` per entry in ascending key order, then the constant; with no entries just the constant |
| Lexing.NewlineOnlyInEol | parser.cc:11-21 | only an EOL token can hold a newline, and then it is exactly "\n" |
| Lexing.LexedCovers | parser.cc:3-122 | every non-blank character lies inside some emitted token, and every newline is an EOL token spanning it alone |
| Lexing.Flush | parser.cc:12-17 | closing the pending token appends it with the lexim `input[start..cur)` and end `cur`; with no pending token nothing is appended |
| Lexing.OperatorToken | parser.cc:50-94 | an operator character yields a one-character token, or `>=`/`<=` spanning two characters; it fails exactly when `>`/`<` is not followed by `=` |
| Lexing.ScanWordChar | parser.cc:33-49 | a letter, digit or `.` starts or extends the pending VAR/NUM token; it fails exactly on a letter after a number or a `.` inside a name |
| Lexing.Retyped | parser.cc:108-120 | retyping keeps lexim and span, and a lexed token comes out fitting its text: max/MAX, min/MIN and st/ST become keywords, any other identifier stays a VAR, and word tokens stay word tokens |
| Lexing.RetypeKeywords | parser.cc:108-120 | the retyping loop retypes every token in place |
| Lexing.RetypedFits | parser.cc:108-120 | after retyping, the scan's tokens are still well formed |
| Lexing.ScanStep | parser.cc:9-100 | one character advances the scan and keeps its invariant; it fails exactly on a bad character |
| Lexing.Scan | parser.cc:3-122 | every token's lexim is `input[start..end)`, tokens are ordered, only blanks lie between them and VAR tokens match the identifier grammar; the scan fails iff some character is bad (unrecognised, `/`, letter after number, unpaired `>`/`<`) |
| Lexing.SlashIsBad | parser.h:9-27 | there is no division token, so `/` is a lexing error |
| Parsing.Split | parser.cc:158-209 | splitting at ADD/SUB gives at least one group, and the first group is positive |
| Parsing.SplitSigns | parser.cc:183-200 | each later group's sign is the operator before it |
| Parsing.SplitGroupsUnsigned | parser.cc:183-200 | no group contains an ADD/SUB token |
| Parsing.SplitJoins | parser.cc:183-200 | the groups together are the tokens minus the signs, in order |
| Parsing.ParseUnary | parser.cc:162-181 | a parsed group stores no zero coefficient |
| Parsing.ParseUnaryMeaning | parser.cc:162-181 | a group is NUM (a constant), VAR (coefficient 1) or NUM MUL VAR (coefficient NUM); nothing else parses |
| Parsing.AccumulateSucceeds | parser.cc:183-200 | adding or subtracting a group succeeds iff it has one of the three shapes |
| Parsing.FoldClosedSucceeds | parser.cc:183-200 | folding the closed groups succeeds iff each is accepted |
| Parsing.ExpressionOfSucceeds | parser.cc:158-209 | an expression parses iff every group is accepted |
| Parsing.AccumulateValues | parser.cc:183-200 | a group adds its signed share to each coefficient and to the constant |
| Parsing.FoldClosedValues | parser.cc:183-200 | the folded coefficients and constant are the signed totals of the groups; no zero is stored |
| Parsing.ExpressionOfValues | parser.cc:158-209 | a parsed expression's coefficients and constant are the signed sums over the groups |
| Parsing.FailureIsFinal | parser.cc:190-199 | once a group fails the whole parse fails with that error |
| Parsing.AccumulateGroup | parser.cc:186-197 | adding a group to the accumulator computes one fold step |
| Parsing.ReadToken | parser.cc:183-200 | one token of the loop keeps the reading invariant or ends the parse with its failure |
| Parsing.ParseExpression | parser.cc:158-209 | the imperative loop returns exactly the specified parse |
| ModelParsing.ParseConstraint | parser.cc:141-157 | the method returns the specified constraint parse |
| ModelParsing.ConstraintOfSucceeds | parser.cc:141-157 | a constraint parses iff it has at least 3 tokens, a relation second to last, a NUM last that converts, and an accepted expression before them |
| ModelParsing.ConstraintOfMeaning | parser.cc:141-157 | the equation type mirrors the relation, compare is the last number, the expression is the parsed prefix, and the type is FLOAT |
| ModelParsing.ParseOptimizationObject | parser.cc:130-140 | the method returns the specified objective parse |
| ModelParsing.ObjectiveOfMeaning | parser.cc:130-140 | an objective parses iff it starts with MAX/MIN and the rest is an accepted expression; its sense is that keyword |
| ModelParsing.Pieces | parser.cc:212-222 | splitting at EOL gives at least one piece |
| ModelParsing.PiecesFlatten | parser.cc:212-222 | one more piece than EOL tokens, no EOL inside a piece, the pieces together are the non-EOL tokens |
| ModelParsing.LinesOfFlatten | parser.cc:212-222 | the lines hold every non-EOL token, in order; there is one line per EOL, plus one if the stream does not end with EOL |
| ModelParsing.SplitLines | parser.cc:212-222 | the line-splitting loop computes those lines |
| ModelParsing.FindComma | parser.cc:232-237 | the scan finds a comma iff the line holds a COMMA token |
| ModelParsing.CollectIntegers | parser.cc:238-245 | the loop collects the line's declared variables |
| ModelParsing.IntegersOfAreInteger | parser.cc:238-245 | the declared set holds exactly the INTEGER variables named by VAR tokens of the declaration line |
| ModelParsing.MoveVariable | parser.cc:246-253 | one variable's FLOAT coefficient moves to its INTEGER twin |
| ModelParsing.MoveIntegers | parser.cc:246-265 | the loop moves every declared variable |
| ModelParsing.MovedByMeaning | parser.cc:246-265 | after the move, no declared variable keeps a FLOAT coefficient; its INTEGER twin carries the old value; other variables and the constant are untouched |
| ModelParsing.ConstraintsOfSucceeds | parser.cc:254-265 | the constraints parse iff every constraint line does |
| ModelParsing.ConstraintsOfValues | parser.cc:254-265 | the i-th constraint is the i-th line's constraint with the integers moved |
| ModelParsing.ParseConstraints | parser.cc:254-265 | the constraint loop computes the specified constraints |
| ModelParsing.ReadDeclaration | parser.cc:228-245 | the constraint lines run from line 2 to before an integer declaration, and the declared variables are collected |
| ModelParsing.Parse | parser.cc:211-267 | the method returns the specified model parse |
| ModelParsing.ConstraintsFailureIsFinal | parser.cc:254-265 | a failing constraint line fails the whole parse with its error |
| ModelParsing.ModelOfMeaning | parser.cc:211-267 | a parsed model needs line 1 to be a lone ST; the sense comes from line 0; there is one constraint per line after ST, minus a final declaration line holding a COMMA |
| ModelParsing.ModelOfConstraint | parser.cc:254-265 | constraint i is line i+2 parsed, with the integers moved |
| ModelParsing.ModelOfMovesIntegers | parser.cc:246-265 | no declared variable keeps a FLOAT coefficient in the objective or in any constraint |
| ModelParsing.ParseString | parser.cc:269-273 | text with a bad character fails; otherwise the result is the parse of a well-lexed token stream of that text |
| LinearPrograms.Fresh | lp.cc:10-33 | a generated name starts with its prefix and is a FLOAT variable |
| LinearPrograms.FreshNamesAreDistinct | lp.cc:3-33 | generated names are not user-defined, never equal a user variable, and are equal only for the same prefix and counter |
| LinearPrograms.NameCounters.Reset | lp.h:138-141 | all counters restart at zero |
| LinearPrograms.NameCounters.CreateBaseVariable | lp.cc:10-14 | returns base<counter>, increments that counter and no other |
| LinearPrograms.NameCounters.CreateSubstitutionVariable | lp.cc:16-21 | returns subst<counter>, increments that counter and no other |
| LinearPrograms.NameCounters.CreateDualVariable | lp.cc:23-27 | returns dual<counter>, increments that counter and no other |
| LinearPrograms.NameCounters.CreateArtificialVariable | lp.cc:29-33 | returns artificial<counter>, increments that counter and no other |
| LinearPrograms.EmptyForm | lp.h:97 | a fresh model: no constraints, a minimisation, no recorded variables |
| LinearPrograms.EquationCopiesShape | lp.cc:56-69 | one LE copy per equation |
| LinearPrograms.EquationCopiesAt | lp.cc:56-69 | the LE copy of the k-th equation sits at position k among the copies |
| LinearPrograms.SplitEquationsMeaning | lp.cc:56-69 | each equation becomes GE in place and gains an appended LE copy in order; non-equations are kept; no EQ remains |
| LinearPrograms.NormalizedMeaning | lp.cc:72-80 | compare minus constant becomes compare and the constant becomes zero; a GE row is negated on both sides and becomes LE; no zero is stored |
| LinearPrograms.ConstraintVariablesMembers | lp.cc:84-88 | the collected variables are exactly those occurring in some constraint |
| LinearPrograms.NonNegativeConstraintMeaning | lp.cc:443-451 | a non-negativity constraint is `-v <= 0` with zero constant and one entry of FLOAT -1; each such shape qualifies |
| LinearPrograms.SoleVariableIsTheKey | lp.cc:94 | the variable read from a one-entry constraint is its only key |
| LinearPrograms.WithoutNonNegativeMembers | lp.cc:99-103 | erasing keeps exactly the constraints that are not non-negativity constraints; their variables occur in the constraints |
| LinearPrograms.SubstitutionForShape | lp.cc:104-109 | each free variable is replaced by `subst_k - subst_k+1` with a zero constant |
| LinearPrograms.SubstituteOneKeeps | lp.cc:104-119 | replacing one free variable keeps every row LE with zero constant and makes both new variables non-negative |
| LinearPrograms.SubstituteAllKeeps | lp.cc:104-119 | replacing all free variables leaves every non-base variable non-negative |
| LinearPrograms.NormalizeKeeps | lp.cc:46-103 | after steps 1 to 4 the model is a maximisation of LE rows with zero constants, except for the free variables |
| LinearPrograms.StandardFormIsStandard | lp.cc:46-120 | the standard form passes StandardFormSanityCheck, and every constraint's constant is zero |
| LinearPrograms.SplitEquationsOf | lp.cc:56-69 | the loop computes the split equations |
| LinearPrograms.NormalizeConstraint | lp.cc:73-79 | the body of the loop computes the normalised row |
| LinearPrograms.NormalizeConstraints | lp.cc:72-80 | the loop normalises every row |
| LinearPrograms.CollectVariables | lp.cc:84-88 | the loop collects the constraint variables |
| LinearPrograms.ScanConstraint | lp.cc:91-98 | one constraint keeps the scan's invariant |
| LinearPrograms.FindNonNegativeConstraints | lp.cc:89-98 | bounded variables leave negative_vars and join the non-negative set; the indices listed are exactly the non-negativity rows, ascending |
| LinearPrograms.EraseConstraints | lp.cc:99-103 | erasing the indices in reverse removes exactly the non-negativity rows |
| LinearPrograms.ReplaceInAll | lp.cc:111-113 | the loop substitutes in every row |
| LinearPrograms.CheckSlackRow | lp.cc:426-438 | a row passes iff it is an equation with exactly one base entry, that entry is -1 and it is not already seen; the seen set grows by it |
| LinearPrograms.VisitRowEntry | lp.cc:428-437 | one entry keeps the row check's invariant or rejects the row for a reason the specification names |
| LinearPrograms.CheckSlackRows | lp.cc:425-439 | the loop accepts iff every row is a slack row and base entries are pairwise distinct across rows |
| LinearPrograms.CheckSlackRowAt | lp.cc:425-439 | one row keeps the loop's invariant or the whole check fails |
| LinearPrograms.SlackRowMeaning | lp.cc:128-135 | a slack row is an equation with compare 0, the base variable at -1, every other coefficient negated and constant compare minus constant |
| LinearPrograms.SlackRowBaseEntries | lp.cc:126-136 | when the fresh names are new, row i of the slack form holds exactly its own base variable |
| LinearPrograms.SlackFormIsSlack | lp.cc:126-136 | when the fresh names are new, the slack form passes SlackFormSanityCheck |
| LinearPrograms.FirstPivotRow | lp.cc:143-158 | the row Pivot solves is the first holding both variables, or none |
| LinearPrograms.PivotSubstitutionMeaning | lp.cc:149-152 | the substitution drops n and divides every other entry and the constant by minus n's coefficient |
| LinearPrograms.PivotExchanges | lp.cc:153-156 | Pivot swaps exactly b and n between the base and non-base sets; the sets stay disjoint and keep their sizes |
| LinearPrograms.PivotEliminates | lp.cc:161-175 | after Pivot, n is gone from the objective and from every row without b; a row with b gets n's coefficient -1 |
| LinearPrograms.PivotExpressionFree | lp.cc:149-152 | the substitution does not hold n |
| LinearPrograms.ScaledToMinusOne | lp.cc:172-173 | scaling by -1/coeff makes that coefficient -1 |
| LinearPrograms.NeedInitialization | lp.cc:178-187 | phase 1 is needed iff some constraint's constant lies below -epsilon |
| LinearPrograms.DualCombinationCoefficients | lp.cc:467-480 | the combination gives dual_i the i-th constraint's entry |
| LinearPrograms.DualCombinationKeys | lp.cc:467-480 | the combination holds only dual variables and a zero constant |
| LinearPrograms.DualObjectiveTransposes | lp.cc:466-472 | the dual minimises, with dual_i weighted by the compare of primal row i |
| LinearPrograms.DualRowTransposes | lp.cc:473-482 | dual row j (j-th non-base variable x) is GE with compare x's objective coefficient and dual_i coefficient A[i][x]; there are as many rows as non-base variables plus constraints |
| LinearPrograms.DualBoundsTransposes | lp.cc:483-488 | the bound rows are `dual_i >= 0` |
| LinearPrograms.DualColumn | lp.cc:477-480 | the inner loop builds one dual column |
| LinearPrograms.PivotRows | lp.cc:163-175 | the second Pivot loop rewrites every row as specified |
| LinearPrograms.LPModel.constructor | lp.h:97 | an empty model; the shared counters restart |
| LinearPrograms.LPModel.AddConstraint | lp.h:99-101 | appends the constraint and changes nothing else |
| LinearPrograms.LPModel.SetOptimizationObject | lp.h:102-105 | the objective is set iff its constant is the FLOAT zero; otherwise the assertion fails and nothing changes |
| LinearPrograms.LPModel.AddBaseVariable | ilp.cc:80 | the variable joins the base set, nothing else changes |
| LinearPrograms.LPModel.IsBaseVariable | ilp.cc:84 | the test holds exactly when the variable is in the model's set of base variables |
| LinearPrograms.LPModel.StandardFormSanityCheck | lp.cc:409-421 | returns whether the model is a maximisation with only LE rows and non-negative non-base variables |
| LinearPrograms.LPModel.SlackFormSanityCheck | lp.cc:423-441 | returns whether the model is in slack form |
| LinearPrograms.LPModel.ToStandardForm | lp.cc:46-120 | the model becomes its standard form; the substitution counter advances by two per free variable; other counters are kept |
| LinearPrograms.LPModel.SubstituteFreeVariable | lp.cc:104-119 | one free variable is replaced and the counter advances by two |
| LinearPrograms.LPModel.Substituted | lp.cc:104-119 | the model's parts are stored as computed |
| LinearPrograms.LPModel.DrawSubstitution | lp.cc:106-109 | draws two fresh substitution names and their difference expression |
| LinearPrograms.LPModel.SubstituteFreeVariables | lp.cc:104-119 | all free variables are replaced in order |
| LinearPrograms.LPModel.ToSlackForm | lp.cc:126-136 | a standard-form model becomes its slack form, drawing one base name per row |
| LinearPrograms.LPModel.ToSlackRow | lp.cc:128-135 | one row becomes its slack row |
| LinearPrograms.LPModel.Pivot | lp.cc:139-176 | the model becomes the pivoted form |
| LinearPrograms.LPModel.ToDualForm | lp.cc:453-490 | returns a new model holding the dual program; the counters restart, then one dual name is drawn per constraint |
| LinearPrograms.LPModel.AddDualObjective | lp.cc:466-471 | the loop draws dual_0 … dual_{m-1} and builds the objective |
| LinearPrograms.LPModel.AddDualObjectiveTerm | lp.cc:468-470 | one constraint adds compare times its dual variable |
| LinearPrograms.LPModel.AddDualRows | lp.cc:473-482 | one dual row is appended per non-base variable |
| LinearPrograms.LPModel.AddDualBounds | lp.cc:483-488 | one bound row is appended per dual variable |
| IntegerPrograms.Trunc | ilp.cc:73 | C++ `int(x)` rounds toward zero |
| IntegerPrograms.FractionBounds | ilp.cc:73-74 | the cut's fractional part lies in [0, 1] and is 1 exactly on the negative integers |
| IntegerPrograms.IntPartAgainstFloor | ilp.cc:73 | the integer part is the floor except on the negative integers, where it is one less |
| IntegerPrograms.CutTermsCoefficients | ilp.cc:82-90 | each listed non-base variable's coefficient drops by its cut term; base variables and the constant are untouched |
| IntegerPrograms.GomoryCutMeaning | ilp.cc:68-92 | the cut is a FLOAT equation with compare 0 and constant intpart(b) - b; the slack has coefficient -1; each non-base row variable with coefficient a gets `-a - intpart(-a)`; every other variable gets 0 |
| IntegerPrograms.GomoryCutBounds | ilp.cc:68-92 | the cut's constant lies in [-1, 0] and every other coefficient in [0, 1] |
| IntegerPrograms.GomoryCutExample | ilp_test.cc:18-35 | the worked row `-1.3 base8 - 1.4 x0 + 1.2 = 0` gives coefficients 0.4 for x0, 0 for base8, -1 for the slack and constant -0.2 |
| IntegerPrograms.FloorFractionBounds | ilp.cc:72 | the floor-based fractional part lies in [0, 1) and is zero exactly on the integers |
| IntegerPrograms.IntPartOnNegativeIntegers | ilp.cc:73-74 | on b = -2 the integer part is -3 and the cut's fraction is 1, where the floor gives 0 |
| IntegerPrograms.SubtractCutTerms | ilp.cc:82-90 | the loop subtracts the cut terms of the non-base variables |
| IntegerPrograms.FindGomoryCut | ilp.cc:68-92 | draws one base name, registers it as a base variable and returns the specified cut; only the base counter moves |
| IntegerPrograms.ILPModel.constructor | ilp.h:17 | no constraints; the objective minimises the INTEGER zero |
| IntegerPrograms.ILPModel.AddConstraint | ilp.h:19-21 | appends the constraint |
| IntegerPrograms.ILPModel.SetOptimizationObject | ilp.h:22-25 | the objective is set iff its constant is the INTEGER zero |
| TextModels.SplitFields | solver.cc:7-20 | `split` returns exactly the getline pieces |
| TextModels.ReadField | solver.cc:11-12 | one getline reads the next piece and moves past its delimiter |
| TextModels.ReadItem | solver.cc:11 | getline stops at the first delimiter or the end |
| TextModels.KindOfPartition | solver.cc:39-49 | the empty field fails; digit-led fields are numbers; `+`/`-` are signs; `>=`/`<=`/`=` compare; min/max mark the objective; anything else, even `-3`, is a symbol |
| TextModels.RunFromFails | solver.cc:57-108 | a failing field ends the line with its error |
| TextModels.ParseLine | solver.cc:37-109 | the field loop computes the specified entry of a line |
| TextModels.TermsExpressionMeaning | solver.cc:70-76 | written terms with distinct names read back to exactly those variables with their signed coefficients and a zero constant |
| TextModels.TermsExpressionCoefficient | solver.cc:70-76 | each written term's variable carries its signed coefficient |
| TextModels.TermRun | solver.cc:70-103 | a sign, a number and a symbol set that symbol's coefficient to the signed number and restore the defaults |
| TextModels.TermsRun | solver.cc:57-108 | the fields of written terms read back into the expression they denote |
| TextModels.TermsFieldsHaveNoSpace | solver.cc:37 | the written fields contain no space |
| TextModels.WrittenLineSplits | solver.cc:37 | a space-joined line of space-free fields splits back into them |
| TextModels.ConstraintLineRoundTrip | solver.cc:37-120 | a constraint written as terms, relation and right-hand side reads back as that constraint |
| TextModels.ObjectiveLineRoundTrip | solver.cc:37-120 | an objective written as `min`/`max` after its terms reads back as that objective |
| TextModels.LeadingConstantDropped | solver.cc:78-103 | in `3 + x >= 5` the leading 3 is dropped, while in `x + 3 >= 5` the 3 becomes the constant |
| TextModels.RepeatedSymbolOverwrites | solver.cc:72 | a repeated symbol overwrites its coefficient rather than adding: `x + 2 x >= 1` gives x the coefficient 2 |
| TextModels.KeywordFirstObjective | solver.cc:60-68 | the objective is what was parsed before the keyword, so `max x` maximises zero |
| TextModels.StepsRun | solver.cc:57-108 | a chain of successful steps is the run of the loop |
| TextModels.HeaderLine | solver.cc:34-35 | the first line is consumed unparsed, and only `int` selects integer mode |
| TextModels.LoadFails | solver.cc:36-121 | a failing line ends the file with its error |
| TextModels.LoadSnoc | solver.cc:36-121 | each line is parsed and pushed after the ones before it |
| TextModels.ParseFile | solver.cc:27-124 | fails iff the lines fail to load; otherwise returns whether the file is an ILP and leaves the chosen model holding exactly the loaded constraints and objective, the other model untouched |
| TextModels.LoadLine | solver.cc:50-121 | one line is loaded into the chosen model or the file fails with its error |
| TextModels.PushInto | solver.cc:110-120 | a constraint is appended to the chosen model and an objective is set in it; the push fails exactly when an objective's constant is not the zero of the model's type, the assertion of `SetOptimizationObject` |
| MpsConversion.UnifiedNamesAt | tools/mps_load.py:7-11 | a name whose last position is i maps to `x<i>` |
| MpsConversion.UnifiedNamesKeys | tools/mps_load.py:7-11 | exactly the listed names are mapped |
| MpsConversion.UnifiedNamesInjective | tools/mps_load.py:7-11 | distinct names get distinct canonical names |
| MpsConversion.UnifiedNamesCount | tools/mps_load.py:7-11 | with unique names there is one entry per variable |
| MpsConversion.LastIndex | tools/mps_load.py:9-10 | a listed name has a last position, the one whose entry survives |
| MpsConversion.ExpressionTextMeaning | tools/mps_load.py:18-34 | the expression renders iff every name is mapped; it is the terms, then `+` iff a term was written, then the constant |
| MpsConversion.TermsTextMeaning | tools/mps_load.py:21-32 | the terms render iff every name is mapped, as one piece per term in input order: `+` before a non-negative coefficient other than the first, the formatted coefficient, `*`, the canonical name |
| MpsConversion.TermsTextFailureIsKeyError | tools/mps_load.py:21-32 | the only failure is a KeyError |
| MpsConversion.TermsTextFailureSticks | tools/mps_load.py:21-32 | once a lookup fails, the whole expression fails with KeyError |
| MpsConversion.FlushedAppend | tools/mps_load.py:60-89 | writing two runs in sequence stops at the first failure and otherwise concatenates |
| MpsConversion.FlushedMeaning | tools/mps_load.py:60-89 | the writer completes iff every write succeeds, and then the file is their concatenation |
| MpsConversion.AllSucceedAppend | tools/mps_load.py:60-89 | writes in sequence succeed iff both parts do, and write both parts' texts |
| MpsConversion.BoundWritesAppend | tools/mps_load.py:74-89 | the bound writes of two variable lists are written one after the other |
| MpsConversion.VariableWritesSucceed | tools/mps_load.py:74-89 | a variable's bounds write iff it is Continuous and, when a bound is present, its name is mapped; a non-Continuous variable is an AssertionError |
| MpsConversion.BoundWritesSucceed | tools/mps_load.py:74-89 | all bound lines write iff every variable is writable |
| MpsConversion.ConstraintWritesAppend | tools/mps_load.py:72-73 | constraint writes of two lists are written one after the other |
| MpsConversion.ConstraintWritesSucceed | tools/mps_load.py:72-73 | all constraint lines write iff every constraint's names are mapped |
| MpsConversion.ConvertSucceeds | tools/mps_load.py:59-89 | the file is written in full iff the objective's and constraints' names are mapped and every variable is writable |
| MpsConversion.VariableWritesAreLines | tools/mps_load.py:74-89 | a variable writes `name>=lb` if lowBound is set, then `name<=ub` if upBound is set, each as a line |
| MpsConversion.BoundWritesAreLines | tools/mps_load.py:74-89 | the bound section is its lines in variable order |
| MpsConversion.ConstraintWritesAreLines | tools/mps_load.py:72-73 | the constraint section is one line per constraint in order |
| MpsConversion.HeadWritesAreLines | tools/mps_load.py:61-71 | the head is `min `/`max ` plus the objective, then `st` |
| MpsConversion.DocumentWritten | tools/mps_load.py:59-89 | a convertible problem's file is its document's lines: head, constraints, bounds |
| MpsConversion.ConvertLines | tools/mps_load.py:59-89 | when names and numbers contain no newline, the written file splits back into exactly the document's lines |
| MpsConversion.NoNewlineInDocument | tools/mps_load.py:59-89 | no document line contains a newline |
| MpsConversion.HeadLinesAvoid | tools/mps_load.py:61-71 | a character absent from names, numbers and the fixed texts is absent from the head |
| MpsConversion.ConstraintLinesAvoid | tools/mps_load.py:37-47 | such a character is absent from every constraint line |
| MpsConversion.PiecesAvoid | tools/mps_load.py:21-32 | such a character is absent from the rendered terms |
| MpsConversion.BoundLinesAvoid | tools/mps_load.py:74-89 | such a character is absent from every bound line |
| MpsConversion.Converter.constructor | tools/mps_load.py:4 | an empty name map and an empty output |
| MpsConversion.Converter.InitializeUnifiedVarNames | tools/mps_load.py:7-11 | the loop adds the canonical names to the map and writes nothing |
| MpsConversion.Converter.ParseExpression | tools/mps_load.py:18-34 | the string-building loop returns the specified rendering or KeyError |
| MpsConversion.Converter.ParseConstraint | tools/mps_load.py:37-47 | renders the expression with constant 0.0, then `=` for sense 0, `>=` for 1 and `<=` otherwise, then minus the constant |
| MpsConversion.Converter.WriteTextModel | tools/mps_load.py:59-89 | names the variables, then writes exactly the flushed writes of the problem, stopping at the first failure |
| MpsConversion.Converter.WriteConstraints | tools/mps_load.py:72-73 | the constraint loop appends the flushed constraint lines |
| MpsConversion.Converter.WriteBounds | tools/mps_load.py:74-89 | the variable loop appends the flushed bound lines |
| MpsConversion.Converter.WriteVariableBounds | tools/mps_load.py:75-89 | one variable's check and bound lines are appended |
| MpsConversion.Converter.WriteBound | tools/mps_load.py:76-88 | one optional bound line is appended |

## Left out

- The simplex solvers, phase 1 (`Initialize`), `GetSolution`, the dual simplex, Gaussian elimination, column generation and the interior-point methods are left out. They are floating-point iterative numerics over libraries whose source is not part of this model.
- `ILPModel::CuttingPlaneSolve` is left out. It drives those solvers in a loop. Only the cut it adds, `FindGomoryCut`, is modelled.
- File and process I/O is left out:
  - `Parser::Parse(std::ifstream&)`;
  - solver.cc's `main` and the opening of the file;
  - the converter script's `__main__` file handling, its printed counts and its usage message;
  - `pulp.LpProblem.fromMPS`.

  `TextModels.ParseFile` starts from the file's text, and the converter starts from the problem pulp has read (`MpsConversion.Problem`).
- Number rendering and reading are opaque parameters, not definitions:
  - `std::to_string`/`Num::ToString` and Python's `format(x, "f")` are `fmt`;
  - `std::stof`/`std::stoi` are `stof`/`stoi`;
  - the tolerance `kEpsilonF` is `epsilon`.

  Float rounding is not modelled. FLOAT values are exact reals.
- `int` overflow, including that of the name counters, and C++ `int(x)` on floats outside the range of `int` are not modelled. Integers are unbounded.
- `Num::float_value` of an INTEGER number is unspecified in the source. `IntegerPrograms.FindGomoryCut` reads the value of whichever type the number has.
- std::map/std::set iteration is modelled as ascending in base.cc's Variable order (`Variables.Sorted`). Python dict order is modelled as the order of the lists in `MpsConversion.Problem`.
- `LinearPrograms.LPModel.constructor` resets all four name counters. The only `Reset` available (lp.h:138-141) resets just the base and substitution counters; the reset of the dual and artificial counters is an assumption about the newer header, which is not part of this model. `LinearPrograms.LPModel.ToDualForm` relies on this: its dual names start at `dual0`.
- `LinearPrograms.FreshNamesAreDistinct`: the values of `kDual` and `kArtificial` come from a header that is not part of this model; `DualPrefix = "dual"` and `ArtificialPrefix = "artificial"` are assumed. The clause that names from different prefixes never collide is proved from the four assumed prefixes starting with different letters, and holds for the real values only if none of them is a prefix of another.
- `Numbers.BinaryOp`: division requires a non-zero divisor. base.cc:33-90 divides without a check; the source then gives inf or NaN for FLOAT (not representable as a real) and undefined behaviour for INTEGER.
- `Numbers.Divide`: requires a non-zero divisor, for the same reason as `Numbers.BinaryOp` (base.cc:118-124 has no check).
- `Expressions.Quotient`: requires a non-zero divisor; base.cc:247-259 divides every coefficient without a check, so a zero divisor is not modelled.
- `Expressions.DivideAssign`: requires a non-zero divisor, as `Expressions.Quotient`. In the core the only `/=` on an expression is in `LinearPrograms.LPModel.Pivot` (lp.cc:145-152), whose divisor is a coefficient the source has just tested to be non-zero.
- `AddBaseVariable` and `IsBaseVariable` are called by ilp.cc but defined in a header that is not part of this model. They are modelled as insertion into, and membership in, the set of base variables.
- `SetEquationType`, `SetOptType` and `SetDataType` are called by lp.cc, ilp.cc and solver.cc but defined in a header that is not part of this model (lp.h has the older `SetType`/`SetCompare`). They are modelled as plain field updates.
- `TextModels.ParseFile`: on failure, what the models hold is not specified. The source throws or aborts at that point.
- `LinearPrograms.LPModel.Pivot`: requires the non-base variable to be FLOAT. Every variable Pivot is given in the source is FLOAT. With an INTEGER one, `== kFloatZero` at lp.cc:166 would differ from a zero test.
- `ModelParsing.ParseString`: states that the result is the parse of some well-lexed token stream of the text. It does not name the stream as a function of the text.
- `Lexing.Scan`: does not model the characters after a `\0` differently. Like the source, it treats `\0` as a blank.

## Findings

| source | as written | input that shows it | evidently intended | confidence | as-written member | corrected member |
|---|---|---|---|---|---|---|
| base.h:41-43 | `lhs.type <= rhs.type and lhs.variable_name < rhs.variable_name` | ("x", INTEGER) and ("x", FLOAT): distinct, yet neither is less, so a map keyed by this order merges them; ("a", INTEGER) is incomparable with ("b", FLOAT) and with ("c", FLOAT), which are ordered | order by type, then by name, as base.cc:11-14 does | not executed | Variables.HeaderLessNotStrictWeak | Variables.LessTotal |
| ilp.cc:73-74 | `b < 0 ? int(b) - 1 : int(b)` as the integer part | b = -2.0: the integer part is -3 and the fractional part 1, so an integral row yields a non-trivial cut; because the caller at ilp.cc:50-53 stores the fractional part in an `int`, negative-integer constants are the only rows it passes on | the floor, as the comment at ilp.cc:72 says, giving a fractional part in [0, 1) | not executed | IntegerPrograms.IntPartOnNegativeIntegers | IntegerPrograms.FloorFractionBounds |
