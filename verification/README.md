# A verified model of an in-process T-SQL server

The program modelled here answers the tabular data stream protocol in process: it reads packets, splits a
batch into statements, interprets control flow, and evaluates each SELECT as a small relational engine over
rows that pluggable backends scan. The model follows the Go sources branch by branch. A loop of the
source is a method with its invariants, proved against a function or a definition; the results below are
about those.

| part | modules | main results |
|---|---|---|
| join planner and evaluator | Planner, Pushdown, Names, NameClash, NullExtension, Rows, JoinExec, JoinLaws | pushing WHERE conjuncts and semi-join lists into the scans keeps the answer, for every backend that returns a subsequence keeping the hinted rows |
| conditions and expressions | Exec, TruthLaws, Comparisons, EvalLaws | three-valued logic; which way each comparison goes; what IN, EXISTS, CASE and subqueries mean over rows |
| correlated subqueries | Binder, NameLaws, PassedOver, Scope, ScopeLaws, Substitution, Subqueries, Missing, Hoist, ScopedEngine | the rewriting is a capture-free substitution at every depth, apart from the names it passes over; a subquery is run once exactly when no enclosing row could change it |
| LIKE | Like, LikeLaws, ByteLike | the loop that keeps one backtrack point decides the declarative meaning; the byte matcher agrees with it on ASCII text only |
| grouping, windows, PIVOT | Aggregates, Grouping, Window, WindowKeys, OrderLaws, Pivot | groups partition, ranks count, CUBE lists each subset once, PIVOT undoes UNPIVOT |
| set operations, recursive CTEs | SetOps, RecursiveCte | the chain is its precedence tree, INTERSECT first; the iteration is a fixpoint |
| batches | Lexing, LexLaws, Statements, Splitter, Rejoin, SplitLaws, Boundaries, SideBySide, Literals | nothing is cut or lost, splitting again gives the same statements, and two statements side by side are cut exactly between them |
| procedural interpreter | Control, ControlLaws, Branches | the flow flags refine structured evaluation; WHILE is IF and WHILE; each jump ends what it should |
| wire | Framing, WireValues, WireLaws, Calendar | round trips, and the bytes themselves |

`Tds` is the parsed query, `Fold` the values and their comparison, `ValueOrder` the order it makes of values of one kind, `Arithmetic` two facts about division.
`dafny verify dfyconfig.toml` checks everything.

## How the world outside is modelled

- A backend is any function from a table and a hint to rows (`Planner.World`); `Planner.Honest` says that it
  answers with a subsequence of the table that keeps the rows on which the hint, in the Env of the query, is TRUE.
- The scalar function library, arithmetic, CAST, comparison of values of two kinds and the printing of values
  are parameters (`Exec.Library`), as are the aggregates' arithmetic (`Aggregates.Aggregator`) and, in
  `Scope.Machine`, the parts of a SELECT that are given their values.
- Row keys are a parameter of grouping and the set operations; rows count as equal when their keys are.
- The engine behind the procedural interpreter is a function of a world, which it may change
  (`Control.Host`).

## Where the code falls short of its promise

Each of these is proved, with the input that shows it or the exact condition under which the code is right.

- `NameClash.CrossJoinExactly`: a source whose table is called like another source's alias, as in a self-join whose first
  source has no alias, loses rows; `NameClash.SelfJoinLosesRows` gives the input.
- `NullExtension.LeftJoinExactly`: the NULL test of a pushed conjunct has no Env, so a condition that reads one may be
  pushed to a NULL-extended side and gain a row; `NullExtension.NullTestGainsRow` gives the query.
- `Like.EscapePercentExactly`: a pattern that ends in `%` under ESCAPE '%'.
- `ByteLike.AgreeExactly`: the two LIKE matchers disagree on text beyond ASCII; `ByteLike.AccentedLetterIsTwoBytes` gives
  the input.
- `Subqueries.KeepsMeaningExactly`, `Missing.StackKeepsMeaningExactly`: an aggregate argument or PARTITION BY name that is
  an outer column is not bound; `Subqueries.OuterAggregateGoesWrong` gives the input.
- `WindowKeys.OrderedExactly`, `WindowKeys.RankExactly`: ranks over NULL keys; `WindowKeys.NullsRankApart` gives the input.
- `RecursiveCte.ResultIsFixpointExactly`, `RecursiveCte.EndlessIsCut`: a recursive CTE is cut at depth 100 silently.
- `SplitLaws.SplitJoinExactly`, `SplitLaws.WideSpaceHidesComment`: trimming drops any white space other than space, tab, CR
  and LF, skipping comments does not.
- `Pivot.RoundTripExactly`: a row whose listed cells are all NULL does not come back.
- `Literals.UnquoteExactly`, `Literals.UnquoteDropsCharacter`: unquote accepts a literal without its closing quote.
- `Framing.RoundTripExactly`: a packet size above 65535 loses the high bits of the length.

## Model

| member | source | states |
|---|---|---|
| `Pushdown.PushdownKeepsAnswer` | internal/engine/engine.go:797-872 | the rows after the final WHERE are the same sequence whichever subsequences honest scans return for the pushed hints, as with full scans, for every chain of INNER/LEFT/RIGHT/FULL/CROSS joins and APPLYs whose names are read right and whose pushed conditions, with the Env of the query, are not TRUE on a source's row of NULLs where an outer join supplies one |
| `Pushdown.PushedIsWhole` | internal/engine/engine.go:833-868 | the same from any join of the chain onwards, whatever rows have been joined so far |
| `Planner.JoinQuery` | internal/engine/engine.go:797-872 | the planner's loop computes the hinted scans, joins and final WHERE that the theorem speaks about, step for step |
| `Planner.RunStep` | internal/engine/engine.go:839-868 | one turn of that loop: an APPLY, or the fetch with its hint and the nested-loop join |
| `Pushdown.SemiJoinIsExact` | internal/engine/engine.go:850-857 | where the semi-join applies, scanning only the right rows whose key is on the list of distinct left keys leaves the join unchanged row for row |
| `Pushdown.PartnerIsListed` | internal/engine/engine.go:1199-1273 | every right row that some left row joins under ON is on that list, under the non-exact equality the scan uses |
| `JoinExec.ReductionUnsafeForRight` | internal/engine/engine.go:850-851 | for RIGHT and FULL dropping partnerless right rows changes the join, so the guard on the join type is needed |
| `Planner.DistinctColValues` | internal/engine/engine.go:1241-1273 | the loop yields the distinct non-NULL keys in order of appearance, telling keys apart by their printed text |
| `Pushdown.NullsFailHint` | internal/engine/engine.go:875-902 | at a source an outer join extends with NULLs, the hint is not TRUE on the row of NULLs exactly when some pushed conjunct, with the Env of the query, is not |
| `Pushdown.EnvFreeFailsOnNulls` | internal/engine/engine.go:888-902 | conjuncts that read no Env, kept by the planner's test, always meet that condition |
| `Pushdown.RejectsNullsExactly` | internal/engine/engine.go:888-902 | a conjunct is kept for such a source exactly when it is not TRUE on the row of NULLs, for every conjunct that reads neither Env nor a subquery |
| `Pushdown.WhereImpliesHint` | internal/engine/engine.go:1100-1126 | a joined row that satisfies WHERE satisfies each source's hint on that source's segment of the row |
| `Pushdown.ConjunctsDecide` | internal/engine/engine.go:1128-1140 | a row passes WHERE exactly when every flattened conjunct is TRUE on it, at any nesting of ANDs |
| `Names.AttributionExactly` | internal/engine/engine.go:1107-1118 | owner.c is attributed to a source exactly when owner is its alias or its table name |
| `Names.ApartIsReadable` | internal/engine/engine.go:1100-1239 | when aliases are distinct, names hold no dot and no table's name is another source's alias, the planner reads every conjunct it pushes and every key it joins by right; pushed conjuncts run no subquery and read columns as alias.name, while other conjuncts may be anything |
| `Names.ApartIsSound` | internal/engine/engine.go:1100-1239 | so the pushdown theorem applies there wherever no pushed condition is TRUE on a row of NULLs |
| `Names.NamesScope` | internal/engine/engine.go:1142-1192 | under that discipline each pushed conjunct reads, on the scanned row, the very cells it reads on the joined row |
| `Names.NamesScopeKeys` | internal/engine/engine.go:1199-1239 | under that discipline, and with keys of one kind, the semi-join's two keys are one column of each side, and the pushed name finds the right one |
| `NameClash.CrossJoinExactly` | internal/engine/engine.go:1100-1126 | for FROM t1 a1 CROSS JOIN t2 a2 the pushdown keeps the answer for every WHERE over the columns as the query names them, every table content and every honest backend exactly when t2 is not called a1 and t1 is not called a2 |
| `NameClash.ClashLosesRow` | internal/engine/engine.go:1115-1118 | with such a clash some query loses a row under a backend that applies its hints |
| `NameClash.SelfJoinLosesRows` | internal/engine/engine.go:1115-1118 | in t CROSS JOIN t m the condition t.id = 1 is also pushed to the scan of m, and the row (1, 2) is lost |
| `NullExtension.LeftJoinExactly` | internal/engine/engine.go:838-902 | for FROM t1 a1 LEFT JOIN t2 a2 ON ... WHERE ..., over columns that are read right, the pushdown keeps the answer for every table content and every honest backend exactly when no left row that WHERE keeps NULL-extended has a partner under ON on which the right side's hint is not TRUE |
| `NullExtension.RightWhereExactly` | internal/engine/engine.go:888-902 | with a WHERE on a2 alone: exactly when the WHERE, with the Env of the query, is not TRUE on the row of NULLs, or what is pushed is TRUE of every row of a2 that ON can join |
| `NullExtension.GainShows` | internal/engine/engine.go:838-868 | otherwise one row in each table and a backend that applies its hints answer the NULL-extended left row, where the query as written answers nothing |
| `NullExtension.NullTestGainsRow` | internal/engine/engine.go:888-902 | FROM d LEFT JOIN e ON e.name = 'y' WHERE ISNULL(e.name, DB_NAME()) = 'x', in a database called x, answers (1, NULL) where it should answer nothing |
| `NullExtension.EnvScalarFoolsRejectsNulls` | internal/engine/engine.go:888-902 | because the test, which has no Env, takes that condition to reject NULLs although it is TRUE on the row of NULLs |
| `Names.EagerIsHonest` | internal/engine/engine.go:797-872 | a backend that applies each hint in full is one the pushdown theorem covers |
| `JoinExec.NestedLoop` | internal/exec/join.go:11-52 | the two loops and the matched flags give: for each left row its pairs or its NULL extension, then the right rows no left row matched |
| `JoinLaws.JoinExactly` | internal/exec/join.go:11-52 | the rows of a join are exactly its pairs that meet ON and, for LEFT and FULL, the left rows without a partner behind NULLs and, for RIGHT and FULL, the right rows that no left row wants, each join type named outright |
| `JoinLaws.LeftIsInnerOrAlone` | internal/exec/join.go:23-36 | a left row gets from LEFT what INNER gives it or, where that is nothing, itself with NULLs once |
| `JoinLaws.RightAddsTheRest` | internal/exec/join.go:37-49 | CROSS is INNER; RIGHT is INNER, and FULL is LEFT, followed by NULLs beside each right row that no left row wants |
| `JoinLaws.LeftRowsInTurn` | internal/exec/join.go:18-36 | the left rows are joined in turn, each on its own |
| `JoinLaws.RightRowsInTurn` | internal/exec/join.go:20-33 | and one left row meets the right rows in turn, each once |
| `JoinExec.JoinShape` | internal/exec/join.go:11-52 | every joined row is a left part and a right part, each a row of its side or all NULLs |
| `JoinExec.SameGoodLeft` | internal/exec/join.go:11-52 | a filter on left columns sees through the join: left inputs that agree on the good rows give joins that agree on the good rows |
| `JoinExec.SameGoodRight` | internal/exec/join.go:11-52 | the same for a filter on right columns, for every join type |
| `JoinExec.OnlyPartnersMatter` | internal/exec/join.go:18-42 | INNER, LEFT and CROSS joins do not change when right rows that no left row joins are left out |
| `JoinExec.ApplyLoop` | internal/engine/engine.go:917-947 | APPLY gives each left row its own right rows; OUTER APPLY keeps a left row with none, with NULLs |
| `JoinLaws.ApplyExactly` | internal/engine/engine.go:917-947 | CROSS APPLY has exactly the left rows paired with their own right rows; OUTER APPLY has those and the left rows whose right side is empty, with NULLs |
| `Exec.RunInTruth` | internal/exec/truth.go:90-104 | the IN loop is TRUE exactly when an element equals the value, FALSE exactly when all compare unequal, UNKNOWN otherwise |
| `TruthLaws.RunTruth` | internal/exec/truth.go:38-78 | the AND and OR loops with their early exits decide what three-valued logic says |
| `TruthLaws.AndDecides` | internal/exec/truth.go:52-63 | AND is FALSE exactly when some operand is, otherwise UNKNOWN exactly when some operand is, otherwise TRUE |
| `TruthLaws.OrDecides` | internal/exec/truth.go:64-76 | OR is TRUE exactly when some operand is, otherwise UNKNOWN exactly when some operand is, otherwise FALSE |
| `TruthLaws.NegationMovesIn` | internal/exec/truth.go:27-87 | NOT may be moved in through AND, OR and the comparisons to their opposites, UNKNOWN staying UNKNOWN |
| `Comparisons.ComparesNumbers` | internal/exec/exec.go:466-482 | <, <=, >, >=, = and <> on two numbers are TRUE exactly when the numbers stand so, under either collation, else FALSE |
| `Comparisons.ComparesText` | internal/fold/fold.go:36-55 | on text they go by the first character in which the two differ, or the shorter that begins the longer, once trailing blanks are dropped and, unless exact, A to Z are read as a to z |
| `Comparisons.ComparesTruth` | internal/exec/exec.go:535-545 | on truth values FALSE is below TRUE |
| `Comparisons.ComparesNull` | internal/exec/exec.go:502-505 | with NULL on either side every comparison is UNKNOWN |
| `Comparisons.CompareTextDecides` | internal/fold/fold.go:38-55 | the string comparison is a total order: exactly one of equal, earlier and later, by the first difference |
| `Comparisons.FilterKeepsNumbers` | internal/exec/exec.go:40-49 | filtering by column < n (or any of the six) keeps, in order, exactly the rows whose cell is a number that stands so to n |
| `EvalLaws.InSubquery` | internal/exec/exec.go:338-346 | v IN (SELECT ...) is TRUE exactly when some answer row's first cell equals v, FALSE exactly when every such cell compares unequal, UNKNOWN otherwise |
| `EvalLaws.InHoisted` | internal/engine/engine.go:441-496 | and so is the condition that hoisting the subquery makes of it, over the rows of its one run |
| `EvalLaws.InList` | internal/exec/truth.go:90-104 | v IN (list) reads its list as IN reads the rows of a subquery with one column |
| `EvalLaws.ExistsRows` | internal/exec/exec.go:304-315 | EXISTS is TRUE exactly when the subquery has a row, hoisted or not, and never UNKNOWN |
| `EvalLaws.ScalarSubquery` | internal/exec/value.go:259-271 | a scalar subquery is the first cell of its first row, and NULL over no rows, hoisted or not |
| `EvalLaws.NullTests` | internal/exec/truth.go:81-104 | IS NULL and IS NOT NULL are never UNKNOWN and opposite |
| `EvalLaws.LikeTests` | internal/exec/exec.go:366-394 | LIKE holds exactly when the text, with or without its trailing blanks, can be cut to fit the pattern's tokens |
| `EvalLaws.FirstWhenDecides` | internal/exec/value.go:217-250 | CASE is the result of the first WHEN that is TRUE, ELSE if none is, NULL without ELSE |
| `EvalLaws.SimpleCaseIsEquality` | internal/exec/value.go:217-250 | CASE x WHEN e is CASE WHEN x = e |
| `EvalLaws.SidesAreValues` | internal/exec/exec.go:304-380 | a column on the left is the expression that names it, and a column or expression on the right is its value at the row |
| `EvalLaws.OperandsInPlace` | internal/exec/value.go:203-229 | an operator and a function of the library see their operands' values, each in its place |
| `Exec.TruthIsLocal` | internal/exec/exec.go:304-380 | over numbers, text and truth values, a condition's truth value depends only on the columns that exprCols lists, and not on Env when it reads none |
| `Planner.BuildIndex` | internal/exec/exec.go:168-191 | the index loop computes the name index the lemmas on resolution are about |
| `Names.JoinedResolves` | internal/exec/exec.go:156-191 | in a joined row a qualified name finds its own column, whatever the short names do |
| `Names.BareNameExactly` | internal/exec/exec.go:168-191 | a bare name over joined columns is column i exactly when column i alone bears it; an ambiguous one is no column |
| `Names.ScanResolves` | internal/exec/exec.go:156-191 | in a scanned row a column is found by its bare name and by that name under any qualifier |
| `Planner.RunFilter` | internal/exec/exec.go:40-49 | the filter keeps, in order, the rows on which WHERE is TRUE |
| `Fold.CompareTextIsEquality` | internal/fold/fold.go:36-55 | the string comparison answers 0 exactly on equal strings |
| `Like.RunLike` | internal/exec/exec.go:383-394 | LIKE, folded or exact, holds exactly when the string can be cut into pieces that the pattern's tokens accept |
| `Like.Scan` | internal/exec/exec.go:396-431 | the loop that remembers only the last % terminates and decides the same as matching with full backtracking |
| `Like.RestartPasses` | internal/exec/exec.go:416-424 | when a later % has been reached, any match that restarts an earlier % is still found from the later one |
| `Like.MatchFromIsMatches` | internal/exec/exec.go:383-431 | matching token by token is the declarative meaning: some cutting of the string fits the tokens |
| `Like.EscapePercentExactly` | internal/exec/exec.go:426-430 | the loop's meaning is the declarative one for all strings exactly when the escape is not %, or the pattern does not end in %, or a token before its last accepts no character, so that nothing matches |
| `Like.LikeClass` | internal/exec/exec.go:434-464 | a bracket class with ranges, negation and escapes decides membership; an unclosed bracket is a literal |
| `LikeLaws.ClassMatches` | internal/exec/exec.go:434-464 | [abc] in front of a pattern takes one character that is among them, [^abc] one that is not, and the pattern goes on behind |
| `LikeLaws.RangeMatches` | internal/exec/exec.go:434-464 | [a-f] takes one character from a to f, [^a-f] one outside |
| `LikeLaws.CharacterMatches` | internal/exec/exec.go:396-431 | _ takes any one character and a plain character itself, with or without an escape character |
| `LikeLaws.EscapedMatches` | internal/exec/exec.go:396-431 | behind the escape character every character, wildcards included, takes itself |
| `LikeLaws.PercentMatches` | internal/exec/exec.go:396-431 | % takes any run: it matches exactly when the rest of the pattern matches some rest of the text |
| `ByteLike.AgreeExactly` | internal/engine/proc.go:1019-1038 | the recursive matcher of the catalog procedures, which steps over bytes, agrees with the loop, which steps over characters, on every pattern without [ exactly when the text is ASCII |
| `ByteLike.AgreeOnAscii` | internal/engine/proc.go:1019-1038 | on ASCII text they agree whatever characters the pattern holds |
| `ByteLike.AccentedLetterIsTwoBytes` | internal/engine/proc.go:1019-1038 | for a text of one accented letter and the pattern _ the loop answers TRUE and the recursive matcher FALSE |
| `Substitution.QueryBound` | internal/engine/bind.go:88-237 | the substitution lemma: rewriting a query and evaluating it in the outer scope gives what the original gives in a scope that answers the substituted names, at every depth of derived tables, joins, APPLY, set operations, CASE and subqueries, when the walk passes over no name that the row answers (a plain aggregate's argument, PARTITION BY and ORDER BY of a window, GROUP BY) |
| `Subqueries.KeepsMeaningExactly` | internal/engine/bind.go:99-117 | for a query that misses no other name, the rewritten query means the same in every engine and every scope exactly when the row answers no plain aggregate argument and no PARTITION BY name of its select list |
| `Missing.StackKeepsMeaningExactly` | internal/engine/bind.go:88-159 | the same at any depth of derived tables and set operation arms that filter nothing: exactly when no select list among them has such a name |
| `Subqueries.OuterAggregateGoesWrong` | internal/engine/bind.go:99-117 | SELECT MAX(o.x) FROM t over o with x = 1 and t with x = 7 is taken for uncorrelated and answers 7, where it means 1 |
| `Subqueries.MissedUnderHavingFalse` | internal/engine/bind.go:99-117 | a missed name need not show: under HAVING FALSE every engine answers alike |
| `Subqueries.BindOuterKeepsMeaning` | internal/engine/bind.go:17-20 | bindOuter(sub, row) run alone gives what sub gives where its own sources shadow the row, when the walk passes over no name of the row |
| `Substitution.ValueBound` | internal/engine/bind.go:172-196 | the same for every scalar expression, aggregate arguments and nested subqueries included |
| `Substitution.TruthBound` | internal/engine/bind.go:198-226 | the same for every condition |
| `Substitution.SelectBound` | internal/engine/bind.go:88-159 | the same for a whole SELECT: FROM, joins, WHERE, GROUP BY, HAVING, select list, windows, ORDER BY |
| `Substitution.EnterRelates` | internal/engine/bind.go:70-84 | entering a query hides exactly its own sources' names from the substitution |
| `Subqueries.SubFnIsScoped` | internal/engine/engine.go:605-612 | the per-row subquery function answers what lexical scoping says: own sources first, then the row, then the enclosing scopes |
| `Subqueries.ApplyRightIsScoped` | internal/engine/engine.go:949-960 | the right side of APPLY is evaluated as though it saw the left row |
| `Subqueries.OnlyAskedNamesMatter` | internal/engine/bind.go:78-84 | a query's answer depends only on the outer names the walk asks for or passes over |
| `Subqueries.UncorrelatedHasOneAnswer` | internal/engine/bind.go:22-31 | a subquery found uncorrelated, with no enclosing name passed over, has the same answer under lexical scoping at every row |
| `Binder.BindQuery` | internal/engine/bind.go:88-159 | the rewritten query is the query itself exactly when the resolver answers none of the names the walk asks about |
| `Binder.BindExpr` | internal/engine/bind.go:198-226 | the same for a condition, subqueries included |
| `Binder.BindValue` | internal/engine/bind.go:172-196 | the same for a scalar expression |
| `NameLaws.HiddenNamesExactly` | internal/engine/bind.go:41-76 | the qualifiers a query hides from its enclosing row are its sources' aliases and, without alias, their table names, with schema or without, and its PIVOT and UNPIVOT aliases, in any spelling |
| `NameLaws.AnsweredNamesExactly` | internal/engine/bind.go:41-68 | those it answers for in its subqueries are the aliases and the table names alike |
| `NameLaws.OuterReadsRow` | internal/engine/bind.go:240-254 | for such a qualifier the row answers the very cell the enclosing query reads under that name, and nothing for any other |
| `ScopedEngine.WhereIsScoped` | internal/engine/engine.go:441-496 | hoisting, per-row subqueries and substitution together keep exactly the rows that WHERE means to keep under lexical scoping |
| `ScopedEngine.TruthIsScoped` | internal/exec/exec.go:304-380 | at every row the evaluator with its per-row subqueries gives every condition its meaning under lexical scoping |
| `ScopedEngine.ValueIsScoped` | internal/exec/value.go:194-273 | and every scalar expression |
| `ScopeLaws.ClausesKeepTrue` | internal/exec/exec.go:40-49 | in the scoped meaning WHERE and HAVING keep exactly the rows and groups on which their condition is TRUE |
| `ScopeLaws.ChainInOrder` | internal/engine/engine.go:160-208 | its set operation has the SELECTs of the chain as arms, in order, each with the operator behind it |
| `ScopeLaws.OutInOrder` | internal/exec/exec.go:61-101 | each row it puts out has the select items and the ORDER BY terms in order, an arm no terms |
| `ScopeLaws.ApplyIsPlanned` | internal/engine/engine.go:917-947 | its APPLY is the planner's |
| `Hoist.IsCorrelatedExactly` | internal/engine/bind.go:22-31 | a subquery is correlated with some qualifiers exactly when some resolver answering only for those changes it |
| `Hoist.UncorrelatedIsClosed` | internal/engine/bind.go:240-254 | if not, the row resolver of every outer row leaves it as it is |
| `Hoist.HoistKeepsTruth` | internal/engine/engine.go:441-496 | replacing EXISTS and IN subqueries by their once-computed constant or list gives every outer row the same truth value as running them for that row |
| `Hoist.HoistKeepsValue` | internal/engine/engine.go:622-665 | replacing scalar subqueries by their literal gives every outer row the same value |
| `Aggregates.BindAggKeepsValue` | internal/exec/aggregate.go:108-172 | evaluating the rewritten tree equals evaluating the original with each aggregate read over the group, through nested calls and CASE |
| `Aggregates.BindAggKeepsTruth` | internal/exec/aggregate.go:174-214 | the same for boolean trees |
| `Aggregates.BoundHasNoAgg` | internal/exec/aggregate.go:64-172 | the rewritten expression contains no aggregate call |
| `Aggregates.BoundExprHasNoAgg` | internal/exec/aggregate.go:87-214 | nor does the rewritten condition |
| `Aggregates.PlainBindsToItself` | internal/exec/aggregate.go:87-104 | a condition without aggregate calls is left as it is |
| `Aggregates.CallReadsGroup` | internal/exec/aggregate.go:108-133 | an aggregate call is given the number of its group's rows and, unless it is COUNT(*), its argument's value at each of them in order, and nothing else of the group |
| `Grouping.GroupRows` | internal/exec/aggregate.go:559-580 | the map-and-order loop lists the keys by first appearance and gives each its rows in order |
| `Grouping.GroupOneSet` | internal/exec/aggregate.go:559-604 | a grouping set yields its groups in that order; grouping by nothing yields one group even of no rows |
| `Grouping.GroupsPartition` | internal/exec/aggregate.go:559-580 | the groups hold the rows, each as often as the input |
| `Grouping.GroupsOfPartition` | internal/exec/aggregate.go:559-604 | for every grouping set and input the groups partition the rows, so COUNT(*) adds up to their number |
| `Grouping.GroupByNothing` | internal/exec/aggregate.go:559-604 | without grouping columns the one group is the input |
| `Grouping.GroupingValue` | internal/exec/aggregate.go:660-675 | GROUPING_ID is the bit mask of the columns rolled up, the first the most significant |
| `Grouping.RollupSets` | internal/tsql/parser.go:1606-1612 | ROLLUP lists exactly the prefixes, longest first |
| `Grouping.CubeSets` | internal/tsql/parser.go:1615-1628 | CUBE's mask loop lists, for each mask downwards, the columns the mask chooses |
| `Grouping.CubeListsEachSubsetOnce` | internal/tsql/parser.go:1615-1628 | CUBE over distinct columns lists every subset exactly once, and the k-th set's GROUPING_ID is k |
| `Window.Rank` | internal/exec/window.go:194-216 | the loop gives each row the rank the row before it decides, whatever the keys are |
| `Window.RankCounts` | internal/exec/window.go:194-216 | over an ordered partition RANK is one more than the number of strictly smaller rows; DENSE_RANK one more than the number of different smaller keys |
| `Window.PercentRank` | internal/exec/window.go:217-242 | the separate peer loop gives (RANK - 1) / (total - 1) from the same count, and CUME_DIST the share of rows not larger |
| `Window.FrameEnds` | internal/exec/window.go:319-347 | a cumulative frame ends at the row's last peer: it holds exactly the rows not larger |
| `Window.Ntile` | internal/exec/window.go:243-266 | each row's bucket is the one whose range of positions it stands in |
| `Window.NtileShares` | internal/exec/window.go:251-266 | bucket numbers do not fall, and bucket b holds total/n rows, one more when b is within the remainder |
| `WindowKeys.CleanIsOrdered` | internal/exec/window.go:148-160 | on keys of one non-NULL kind for each column that the sort left in order, less and keysEqual are the two faces of one total order |
| `OrderLaws.NumbersInOrder` | internal/exec/window.go:148-160 | ORDER BY puts the smaller number first, under DESC the larger |
| `OrderLaws.TextInOrder` | internal/exec/window.go:148-160 | and the text that reads earlier, under DESC the later |
| `OrderLaws.FirstColumnDecides` | internal/exec/window.go:148-160 | a later ORDER BY column counts exactly where the columns before put neither row first |
| `WindowKeys.LessAndEqual` | internal/exec/window.go:472-483 | on such keys, less and keysEqual are the sign of one three-way comparison |
| `WindowKeys.RankKeys` | internal/exec/window.go:194-216 | so RANK over the sort keys counts what is strictly smaller in the ORDER BY |
| `WindowKeys.OrderedExactly` | internal/exec/window.go:472-483 | sorted keys of one kind or NULL in each column are ordered by less and keysEqual exactly when no key has a NULL |
| `WindowKeys.RankExactly` | internal/exec/window.go:128-216 | sorted by one column, RANK is one more than the number of rows the sort puts before exactly when no key is NULL or there is one row at most |
| `WindowKeys.NullsRankApart` | internal/exec/window.go:194-216 | two NULL rows get the ranks 1 and 2 although neither is before the other |
| `WindowKeys.ComputeWindow` | internal/exec/window.go:85-114 | every row is written exactly once, with its value in its own partition |
| `Pivot.PivotUndoesUnpivot` | internal/exec/pivot.go:17-136 | PIVOT with MAX over UNPIVOT gives the table back with the listed columns last, NULL cells included, when the kept columns are distinct keys, the names are distinct under folding and every row has a non-NULL listed cell |
| `Pivot.RoundTripExactly` | internal/exec/pivot.go:17-136 | where the kept columns are keys, PIVOT over UNPIVOT gives back exactly the rows with a non-NULL listed cell, so it is the identity exactly when every row has one |
| `Pivot.RowOfNullsIsLost` | internal/exec/pivot.go:114-131 | a row whose listed cells are all NULL yields nothing |
| `Pivot.Unpivot` | internal/exec/pivot.go:91-136 | each row yields its kept columns once for every listed cell that is not NULL, in the listed order |
| `Pivot.RunPivot` | internal/exec/pivot.go:47-86 | each group in order of appearance yields its grouping columns and, for each name, the MAX of the rows under it, NULL over none |
| `Pivot.RunMax` | internal/exec/aggregate.go:807-828 | MAX over a column of one kind or NULL is one of its values, and no other is larger |
| `Pivot.MaxIsLargest` | internal/exec/aggregate.go:807-828 | and it is NULL exactly when every value is |
| `SetOps.CombineSetOps` | internal/engine/engine.go:211-234 | a chain of set operators is the precedence tree where INTERSECT binds tighter and the rest associate to the left |
| `SetOps.OperatorsMean` | internal/engine/engine.go:211-281 | by operator: UNION ALL is all rows; UNION has once each key of either side, INTERSECT of both, EXCEPT of the left without the right, each by the first row of its key, from the left for the last two |
| `SetOps.OuterLast` | internal/engine/engine.go:211-234 | INTERSECT binds tighter: a chain whose last other operation is op is op between the chain before it and the chain of INTERSECTs behind it; UNION, UNION ALL and EXCEPT run from left to right |
| `SetOps.IntersectsInTurn` | internal/engine/engine.go:211-221 | a chain of INTERSECTs runs from left to right |
| `SetOps.SetOperations` | internal/engine/engine.go:236-281 | UNION, INTERSECT and EXCEPT hold no two rows of one key, and a key is in them exactly as set algebra says |
| `SetOps.FirstsAreFirst` | internal/engine/engine.go:236-247 | each row of a result is the first of its key in the input, and the results keep the input's order |
| `SetOps.FirstsHaveNoDuplicates` | internal/engine/engine.go:236-281 | no key appears twice |
| `SetOps.FirstRows` | internal/engine/engine.go:236-247 | the seen-map loop computes those first rows |
| `SetOps.IntersectRows` | internal/engine/engine.go:249-264 | INTERSECT keeps the first left row of each key the right side has |
| `SetOps.ExceptRows` | internal/engine/engine.go:266-281 | EXCEPT keeps the first left row of each key the right side lacks |
| `SetOps.Dedupe` | internal/exec/exec.go:142-153 | the in-place compaction computes the same sequence as distinctRows |
| `RecursiveCte.RunRecursiveCte` | internal/engine/engine.go:691-734 | the result is the anchors followed by the generations in order, up to the first empty one or depth 100 |
| `RecursiveCte.ResultIsFixpointExactly` | internal/engine/engine.go:714-731 | when the arms distribute over bag union, the result equals the anchors and what the arms make of it exactly when generation 101 is empty, as it is whenever the loop stops before depth 100 |
| `RecursiveCte.EndlessIsCut` | internal/engine/engine.go:715-715 | a recursion that does not end is cut at depth 100 and answered short, without an error |
| `SplitLaws.SplitKeepsSense` | internal/extensions/batch/batch.go:50-74 | no string, [name], comment or word is cut, lost or moved: the statements' units in order are the batch's, apart from comments, blanks and the separating semicolons |
| `SplitLaws.SplitInOrder` | internal/extensions/batch/batch.go:50-74 | each statement is trimmed, holds no separator and would not be cut further, and only the last may end inside a string, name or comment |
| `SplitLaws.SplitJoinExactly` | internal/extensions/batch/batch.go:46-74 | splitting the statements joined again with newline, semicolon, newline gives the same statements exactly when none opens with a comment |
| `SplitLaws.SplitJoin` | internal/extensions/batch/batch.go:46-74 | so it does for every batch whose only white space is space, tab, CR and LF |
| `SplitLaws.WideSpaceHidesComment` | internal/extensions/batch/batch.go:110-124 | any other white space (vertical tab, form feed, no-break space, the Unicode spaces) before a comment hides it from the trimming, and the comment statement vanishes on the second splitting |
| `Splitter.Split` | internal/extensions/batch/batch.go:50-74 | the scanning loop cuts at the semicolons that stand outside strings, names and comments, and each chunk at its statement boundaries |
| `Splitter.TrimLeadingComments` | internal/extensions/batch/batch.go:110-124 | leading blanks and comments are dropped until neither leads |
| `Lexing.SkipComment` | internal/extensions/batch/batch.go:77-107 | line comments end before the newline, block comments nest; elsewhere nothing is skipped |
| `Lexing.SkipString` | internal/extensions/batch/batch.go:292-303 | a string ends at its first undoubled quote |
| `Lexing.SkipBracket` | internal/extensions/batch/batch.go:305-312 | a [name] ends at its first ] |
| `Splitter.ScanWords` | internal/extensions/batch/boundary.go:25-59 | the word scan finds the words and names outside strings and comments, each with its depth in parentheses and whether ( follows |
| `Splitter.StatementEnd` | internal/extensions/batch/boundary.go:75-148 | the state machine over lead, values and ownSet finds the first boundary word |
| `SideBySide.SideBySideExactly` | internal/extensions/batch/boundary.go:9-148 | for a statement p, white space and a text q that opens with one of the 26 keywords, the statements are p followed by those of q exactly unless the keyword continues p (set operators, hints, WITH TIES, UPDATE's SET, MERGE actions, INSERT sources, routine bodies, cursors and the rest, spelled out keyword by keyword), and then it stays in p's statement |
| `Boundaries.WordBoundary` | internal/extensions/batch/boundary.go:75-148 | the same told by words: nothing is cut at a keyword that continues the statement, and every other keyword is cut at |
| `SideBySide.SelectThen` | internal/extensions/batch/boundary.go:94-117 | SELECT 1 followed by any of the keywords but WITH is two statements |
| `Splitter.CutStatements` | internal/extensions/batch/boundary.go:64-72 | a text without separators is cut into its statements; the loop ends because every cut is longer than nothing |
| `Rejoin.CutIsWhole` | internal/extensions/batch/boundary.go:75-148 | a boundary falls between units, and the statement in front of it has no earlier boundary of its own |
| `Literals.LexString` | internal/tsql/lexer.go:116-138 | the lexer's string case reads a literal's text and length, or finds it unterminated |
| `Literals.ReadersAgree` | internal/tsql/lexer.go:116-138 | the lexer and the batch scanner find the same end of every string, and the token is the text with quotes halved |
| `Literals.LexReadsQuote` | internal/wire/rpc.go:352-357 | a printed string is read back by the lexer as that string, whatever follows it but a quote |
| `Literals.QuoteEndsExactly` | internal/extensions/batch/batch.go:292-303 | a printed literal is stepped over as one string exactly when no quote follows |
| `Literals.QuoteIsOneUnit` | internal/extensions/batch/batch.go:292-303 | and is then one unit of the batch scanner, the rest scanning as it would alone |
| `Literals.UnquoteQuote` | internal/extensions/batch/declared.go:82-91 | unquote gives the quoted string back, with its N prefix |
| `Literals.UnquoteExactly` | internal/extensions/batch/declared.go:83-91 | what unquote accepts prints back to the same text exactly when its first closing quote exists |
| `Literals.UnquoteDropsCharacter` | internal/extensions/batch/declared.go:83-91 | unquote accepts the unterminated 'abc and drops its last character |
| `Literals.Substitute` | internal/extensions/batch/batch.go:149-186 | the loop replaces bound @names outside strings, names and comments and copies everything else |
| `Literals.SubstByUnits` | internal/extensions/batch/batch.go:149-186 | substitution acts on each word by itself and leaves every other unit alone |
| `Literals.SubstKeepsQuote` | internal/extensions/batch/batch.go:149-186 | a printed literal passes through substitution unchanged |
| `LexLaws.VariableReads` | internal/extensions/batch/batch.go:149-186 | @name in any spelling of its letters becomes the variable's value, and an unknown one stays |
| `LexLaws.LineComment` | internal/extensions/batch/batch.go:77-107 | a -- comment ends at its line's end |
| `LexLaws.BlockComment` | internal/extensions/batch/batch.go:77-107 | a block comment of any nesting ends at the mark that closes its first |
| `LexLaws.LineCommentInFront` | internal/extensions/batch/batch.go:50-124 | a -- comment line in front of a batch changes none of its statements |
| `LexLaws.BlockCommentInFront` | internal/extensions/batch/batch.go:50-124 | nor does a nested block comment |
| `LexLaws.BracketName` | internal/extensions/batch/batch.go:305-312 | a [name] with no ] inside is one unit of the batch scanner |
| `LexLaws.WordUnit` | internal/extensions/batch/boundary.go:48-61 | letters, digits and _ @ # $ . run together as one word |
| `LexLaws.MarkUnit` | internal/extensions/batch/boundary.go:25-57 | every other character stands alone, but where it opens a string, a [name] or a comment |
| `Control.ExecStmt` | internal/extensions/procedures/control/exec.go:109-264 | the flow-flag interpreter over shared scope, runner and state refines structured evaluation: same error or flow, same world and variables, and the old results followed by the new |
| `Control.ExecBlock` | internal/extensions/procedures/control/exec.go:111-119 | a block runs in order and stops at the first error or set flag |
| `Control.ExecWhile` | internal/extensions/procedures/control/exec.go:173-197 | the counted loop consumes BREAK and CONTINUE, passes RETURN on and fails at the iteration limit |
| `Control.RunAll` | internal/extensions/procedures/control/exec.go:96-107 | a batch run from empty variables returns its result sets in order, or the error alone |
| `ControlLaws.Sequence` | internal/extensions/procedures/control/exec.go:111-119 | what follows a statement runs exactly when that neither fails nor jumps, so nothing runs after RETURN |
| `ControlLaws.JumpsStayInside` | internal/extensions/procedures/control/exec.go:156-197 | BREAK and CONTINUE never leave their innermost WHILE: a statement ends with a jump only if it holds one outside any WHILE of its own |
| `ControlLaws.FailingTry` | internal/extensions/procedures/control/exec.go:198-205 | a failing TRY body drops exactly its own results, keeps its effects on variables and world, and CATCH runs with its error |
| `ControlLaws.WhileEndsExactly` | internal/extensions/procedures/control/exec.go:173-197 | a loop whose condition turns false after n turns ends normally exactly when n is below 1,000,000: at the limit it fails before the condition is asked again |
| `Branches.IfElseExactly` | internal/extensions/procedures/control/exec.go:162-172 | IF c a ELSE b ends as a from the world the test leaves exactly when WHILE c RETURN would return, as b exactly when that would stop at once, and fails as the test does |
| `Branches.WhileIsIf` | internal/extensions/procedures/control/exec.go:162-197 | for a body without BREAK or CONTINUE of its own and a loop that ends below the limit, WHILE c s ends as IF c BEGIN s; WHILE c s END does |
| `Branches.TestMeansOne` | internal/extensions/procedures/control/exec.go:314-333 | a test is TRUE exactly when its CASE over the condition answers 1 |
| `Branches.BreakEnds` | internal/extensions/procedures/control/exec.go:187-190 | what stands behind BREAK does not run, and the loop is over: it ends as IF c with what stands before |
| `Branches.ContinueSkips` | internal/extensions/procedures/control/exec.go:191-192 | what stands behind CONTINUE in a loop's body might as well be left out |
| `Branches.ReturnLeaves` | internal/extensions/procedures/control/exec.go:193-195 | RETURN in a loop leaves the loop and the block around it |
| `Branches.TryPasses` | internal/extensions/procedures/control/exec.go:198-205 | a body that does not fail is all there is to a TRY |
| `Branches.ThrowRaisesAgain` | internal/extensions/procedures/control/exec.go:206-212 | THROW alone in CATCH raises what the body raised, from the world it left |
| `Branches.PlainErrorSeen` | internal/extensions/procedures/control/exec.go:268-273 | CATCH sees an error of the engine as number 50000, severity 16, state 1 |
| `Branches.ThrowExactly` | internal/extensions/procedures/control/exec.go:213-234 | THROW n, m, s raises number n with message m and state s at severity 16 |
| `Branches.RaiserrorExactly` | internal/extensions/procedures/control/exec.go:235-261 | RAISERROR raises 50000 with its message, severity and state exactly when the severity is above 10, and goes on otherwise |
| `Branches.DeclareInTurn` | internal/extensions/procedures/control/exec.go:133-145 | DECLARE of several variables declares them one after the other, so that each may use those before it |
| `Branches.SetIsDeclare` | internal/extensions/procedures/control/exec.go:146-151 | SET gives a declared variable what DECLARE with that value gives it |
| `Branches.AssignTakesLast` | internal/extensions/procedures/control/assign.go:49-67 | SELECT @x = ... FROM gives each variable its cell of the last row, leaves the others alone and answers no rows |
| `Framing.StreamRoundTrip` | internal/wire/framing.go:36-100 | reading the concatenated output of any list of messages gives that list and leaves what follows (section 2.2.3 of MS-TDS) |
| `Framing.RoundTripExactly` | internal/wire/framing.go:36-100 | the round trip holds for every message exactly when the packet size fits in sixteen bits |
| `Framing.SplitShape` | internal/wire/framing.go:68-100 | the packets hold the payload in order, all but the last are full, only the last carries EOM, and ids count up modulo 256 |
| `WireLaws.PacketBytes` | internal/wire/framing.go:68-100 | byte for byte: the i-th packet starts at i packet sizes with type, EOM flag, whole length with the high byte first, channel 0, packet number i + 1 modulo 256 and window 0, and then its share of the payload (section 2.2.3.1 of MS-TDS) |
| `Framing.WriteMessage` | internal/wire/framing.go:68-100 | the write loop appends those packets and nothing else |
| `Framing.ReadMessage` | internal/wire/framing.go:36-64 | the read loop takes packets up to the one with EOM, rejects lengths below the header and truncated input |
| `WireValues.PlpRoundTrip` | internal/wire/result.go:346-370 | a chunked character value of any length, or NULL, is read back with what follows it untouched (section 2.2.5.2.3 of MS-TDS) |
| `WireValues.EncodePlpString` | internal/wire/result.go:346-370 | the encoding loop writes length-prefixed chunks and the terminator |
| `WireValues.PlpString` | internal/wire/rpc.go:278-303 | the decoding loop takes chunks up to the empty one and rejects truncated input |
| `WireValues.LeInt` | internal/wire/rpc.go:305-315 | the byte loop reads a little-endian number in two's complement |
| `WireValues.IntRoundTripExactly` | internal/wire/result.go:322-329 | an integer of 1, 2, 4 or 8 bytes is read back exactly when it fits that width, and NULL always |
| `WireLaws.IntBytes` | internal/wire/result.go:322-329 | a four-byte integer is sent low byte first in two's complement behind its length |
| `WireLaws.OneChunk` | internal/wire/result.go:346-370 | a string of one chunk is its length in eight bytes and in four, low byte first, its bytes, and a zero length |
| `WireLaws.UnitOrder` | internal/wire/result.go:346-370 | each UTF-16 unit is sent low byte first |
| `Calendar.NextDayIsOneMore` | internal/wire/result.go:314-320 | daysSince1 grows by exactly one from each Gregorian date to the next, across month ends and leap years |
| `Calendar.NthHasNumber` | internal/wire/result.go:314-320 | the n-th day after 0001-01-01 has number n |
| `Calendar.DateIsNth` | internal/wire/result.go:314-320 | every valid date is the day its number says |
| `Calendar.NumbersTellDatesApart` | internal/wire/result.go:314-320 | two dates have one number exactly when they are the same |
| `Calendar.FitsThreeBytes` | internal/wire/result.go:299-320 | through year 9999 the number stays below 2^24 (section 2.2.5.5.1.8 of MS-TDS) |
| `Calendar.DateTimeRoundTrip` | internal/wire/result.go:299-312 | the seven encoded bytes give back the seconds and the date |

## Left out

- Pushdown.PushdownKeepsAnswer: pushed conjuncts with subqueries are outside it, because the column list does not look inside a subquery; columns are qualified, aliases are as in `Names.NamesApart`, each column holds one kind of value (or NULL), and the printed text tells values of one kind apart.
- Pushdown.SemiJoinIsExact: the two keys are of one kind; comparing values of two kinds is not transitive and stays a parameter.
- ByteLike.AgreeExactly: patterns with [ are excluded, since the recursive matcher has no classes; lower-casing in front of it, and text that is not valid UTF-8, are not modelled.
- Exec.TruthIsLocal: values are numbers, text and truth values; for dates and times CAST to text and the text functions also read the column types kept in Env.
- WindowKeys.RankKeys: takes the rows as sorted; that sort.SliceStable sorts is not proved, and where the code orders NULL keys inconsistently the rows need not come out sorted at all.
- WindowKeys.RankExactly: over one column, for RANK; for several columns, PERCENT_RANK, CUME_DIST and frames `WindowKeys.OrderedExactly` says when their counts hold, not that they fail elsewhere.
- NameClash.CrossJoinExactly: the converse is for two sources; for a chain `Names.ApartIsSound` is one-way.
- NullExtension.LeftJoinExactly: the converse is for one LEFT JOIN of two different tables.
- Window.PercentRank: over reals, without floating-point rounding.
- WindowKeys.ComputeWindow: sorting and the window function are parameters, of which only that one permutes and the other answers once for each member is used.
- Pivot.PivotUndoesUnpivot: columns are given by index, so the lookup of PIVOT's column names is not modelled; aggregates other than MAX are not either.
- Grouping.CubeSets: masks are unbounded numbers, so the shift that overflows at 63 columns is not modelled.
- SetOps.SetOperations: relative to a row key that is a parameter; fold.RowKey joins its parts with spaces and is not injective.
- RecursiveCte.ResultIsFixpointExactly: arms are functions of the working rows; the overlay that gives the CTE's name its rows is not modelled.
- Substitution.QueryBound: grouping, aggregates, windows, paging and set operations are parameters of the scoped meaning, which are given every value they read by name; HAVING is evaluated on the group's row, not on the output row with its select aliases.
- Subqueries.BindOuterKeepsMeaning: an outer column named without a qualifier is never bound by the code, and the scoped meaning takes it for a local name too.
- Subqueries.KeepsMeaningExactly: the converse is for a select list that no HAVING guards, since a missed name that is never evaluated does not show (`Subqueries.MissedUnderHavingFalse`); missed names inside expressions are covered in one direction.
- Subqueries.ApplyRightIsScoped: VALUES under APPLY is in the meaning but not in this lemma.
- ScopedEngine.WhereIsScoped: for a query that nothing encloses, with its rows given and closed subqueries evaluated as they mean; that the engine's own recursion gives that meaning, with the joins of `Planner.JoinQuery` for the scoped FROM, is not proved.
- Aggregates.BindAggKeepsValue: what an aggregate computes is a parameter (SUM, AVG and STDEV are floating point).
- Control.ExecStmt: WAITFOR, GOTO, parsing of the procedural text and the text that carries variables into a statement are left out or parameters.
- Calendar.DateTimeRoundTrip: scale 0 only, as the code writes it; parsing a date from text is not modelled.
- WireValues.PlpRoundTrip: over UTF-16 code units; the conversion between Go strings and UTF-16 is not modelled.
- SideBySide.SideBySideExactly: with one white-space character between the two, and a first statement that has a word and its parentheses closed.
- Binder.BindQuery: qualifiers are folded over the letters A to Z, where the code lowers every Unicode letter.
- Evaluation errors, unknown columns (read as NULL here), cancellation and nondeterministic functions.
- Column qualification from the catalog (qualifyBareWhere), type inference of columns and the catalog views.
- The parser beyond grouping sets and set-operation chains, and the lexer beyond string literals.
- Temporary tables, views, ordinary CTEs, writes, ORDER BY over a set operation and the paging of results.
- LAG, LEAD, FIRST_VALUE, LAST_VALUE and PERCENTILE, and the arithmetic of windowed aggregates.
- fitText and the declared text types, splitting of procedure arguments, and text-based parameter expansion.
- TLS, sockets, login, audit, the session registry and the example backends.
