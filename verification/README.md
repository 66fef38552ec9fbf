# VerdictDB approximate-query core, modelled in Dafny

This project models the sequential logic at the heart of VerdictDB's
approximate-query layer and proves properties of that model:

- **Scramble requests** (`ScramblingCoordinator`): the method name is checked
  case-insensitively, the default options are merged with the caller's, the
  target schema and table are derived, the scrambling method is chosen, and
  the `ScrambleMeta` is assembled. Plan creation and execution are one
  abstract step that succeeds with the method's statistics or fails.
- **The partial-aggregate combiner** (`AggCombiner`): the select list is
  rewritten into a re-aggregation over `UNION ALL` of two partial results.
  The aggregation metadata carried by upstream tokens is folded. The node's
  token is built, and the node is wired to its two upstream nodes.
- **The exact relation tree** (`ExactRelation`, `RelationGen`): chains of
  grouping and filtering nodes are walked. A relation is rendered as a FROM
  source. Sample candidates are consolidated. A parsed SELECT statement is
  stacked into Join, Filter, Group, Aggregate, Project, Order and Limit nodes.
- **The INSERT serialiser** (`InsertQueryToSql`).
- **The Spark type-code mapping** (`SparkDataTypeConverter`).
- **Group keys** (`AggregateGroup`, `ResultSetGroup`): structural equality and
  the `hashCode` Java derives from it.

The Java library behaviour these rely on is modelled in small shared modules:

- `Text`: `toLowerCase`/`equalsIgnoreCase`, `Long.toString` and separator joining.
- `JavaNumbers`: `Double.valueOf(..).longValue()` and `Integer.valueOf`.
- `JavaHash`: `String.hashCode`, `List.hashCode`/`List.equals`, and 32-bit `int` wrap-around.
- `Results`: `Option` for Java `null`, and `Result` for exceptions.

Expressions, conditions and query objects that the source only passes around
are opaque values. Collaborators whose code is not part of this model are
function parameters:

- the scrambling executor;
- `SelectElem.isagg`;
- `Cond.searchForJoinCondition` and `Cond.remove`;
- the relations' `toSql` and `joinClause`;
- `SamplePlans.consolidateNewExpr` and `bestPlan`;
- the values' `hashCode`/`equals`.

## Model

| member | source | states |
|---|---|---|
| ScramblingCoordinator.Create | src/main/java/org/verdictdb/coordinator/ScramblingCoordinator.java:35-74 | The coordinator holds exactly the four default option keys. Without a block size it holds the defaults themselves. A given block size replaces only the block-size option, written in decimal, and every other default is kept. |
| ScramblingCoordinator.CreateWithSchema | src/main/java/org/verdictdb/coordinator/ScramblingCoordinator.java:57-59 | One schema is used both as the scramble schema and as the scratchpad schema, with the default options. |
| ScramblingCoordinator.EffectiveOptions | src/main/java/org/verdictdb/coordinator/ScramblingCoordinator.java:154-160 | The merged keys are the union of default and caller keys. Every caller key carries the caller's value. Every other default key keeps its default. |
| ScramblingCoordinator.EffectiveOptionsOfCopy | src/main/java/org/verdictdb/coordinator/ScramblingCoordinator.java:124 | Merging the defaults over a copy of themselves gives back the defaults unchanged. |
| ScramblingCoordinator.SelectMethod | src/main/java/org/verdictdb/coordinator/ScramblingCoordinator.java:164-174 | "uniform" in any case gives Uniform with the block size. "FastConverge" in any case gives the with-column variant exactly when a primary column is given, with the block size and scratchpad schema. A missing scratchpad schema is an error. Any other name is InvalidMethod. |
| ScramblingCoordinator.PrepareRequest | src/main/java/org/verdictdb/coordinator/ScramblingCoordinator.java:148-179 | An unsupported name fails before anything else is done. For a supported name, a block-size option the double parse rejects gives MalformedBlockSize; otherwise the call succeeds exactly when the decision table picks a method, and fails with the decision table's error when it does not. A built request carries the given schemas and tables and the merged options. Its method's block size is the parse of the merged block-size option, and its method is the decision table's choice. |
| ScramblingCoordinator.Scramble | src/main/java/org/verdictdb/coordinator/ScramblingCoordinator.java:138-207 | An unsupported name is rejected. A request that cannot be built (malformed block size, missing scratchpad schema) fails with exactly the preparation error, before the executor is involved. The call succeeds iff the request can be built and executed, and an execution failure is reported as such. The meta carries the new and original names, and the block and tier columns from the merged options. Block and tier counts come from the method. The distribution map's keys are exactly 0 to tierCount-1, each mapped to that tier's distribution. |
| ScramblingCoordinator.ScrambleOnColumn | src/main/java/org/verdictdb/coordinator/ScramblingCoordinator.java:114-136 | The six-argument overload is the seven-argument one with a copy of the coordinator's options, so the meta's block and tier columns are the coordinator's own. |
| ScramblingCoordinator.ScrambleWithMethod | src/main/java/org/verdictdb/coordinator/ScramblingCoordinator.java:100-112 | The five-argument overload passes no primary column. |
| ScramblingCoordinator.ScrambleInto | src/main/java/org/verdictdb/coordinator/ScramblingCoordinator.java:89-98 | The four-argument overload uses method "uniform" and no primary column, so it fails only on a malformed block size or in execution. |
| ScramblingCoordinator.ScrambleTable | src/main/java/org/verdictdb/coordinator/ScramblingCoordinator.java:76-87 | The new schema is the scramble schema when set, else the original schema. The new table is the original name plus the configured suffix. |
| ScramblingCoordinator.InvalidMethodUnreachable | src/main/java/org/verdictdb/coordinator/ScramblingCoordinator.java:149-174 | A name that passes the lower-case membership check always matches a branch, so "Invalid scrambling method" is never raised. |
| ScramblingCoordinator.SupportedNameSelection | src/main/java/org/verdictdb/coordinator/ScramblingCoordinator.java:164-171 | For each accepted name, the exact method built. |
| ScramblingCoordinator.DefaultRequestIsUniformMillion | src/main/java/org/verdictdb/coordinator/ScramblingCoordinator.java:43 | On a default coordinator the default overloads request Uniform(1000000) with exactly the default options. |
| ScramblingCoordinator.ConstructorBlockSizeReachesMethod | src/main/java/org/verdictdb/coordinator/ScramblingCoordinator.java:71-73 | A block size of at most 2^53 in magnitude given to the constructor is written as a string, read back by the double parse, and reaches the uniform method unchanged. |
| JavaNumbers.ParseDoubleToLongOfIntToString | src/main/java/org/verdictdb/coordinator/ScramblingCoordinator.java:163 | For every long of at most 2^53 in magnitude (exactly representable as a double), parsing its decimal string as a double and taking `longValue` gives back the number. |
| JavaNumbers.DefaultBlockSizeIsOneMillion | src/main/java/org/verdictdb/coordinator/ScramblingCoordinator.java:43 | The default block-size text "1e6" parses to 1000000. |
| JavaNumbers.TruncateToLong | src/main/java/org/verdictdb/coordinator/ScramblingCoordinator.java:163 | `longValue` always lands in the long range. NaN gives 0 and infinities give the range ends. A finite value becomes its whole part (truncated toward zero) with its sign, kept exactly when that is in the long range and saturated to the nearer end otherwise. |
| JavaNumbers.WholePartBounds | src/main/java/org/verdictdb/coordinator/ScramblingCoordinator.java:163 | The whole part of a decimal value is the largest natural number not above it: the value itself for a non-negative exponent, otherwise the quotient bounded by the mantissa from both sides. |
| JavaNumbers.TruncateToLongExamples | src/main/java/org/verdictdb/coordinator/ScramblingCoordinator.java:163 | 1000000.0 gives 1000000, 2.5 gives 2, -2.5 gives -2, and 1e19 gives the largest long. |
| JavaNumbers.ParseIntOfIntToString | core/src/main/java/edu/umich/verdict/relation/ExactRelation.java:223-225 | Every int written in decimal is read back unchanged by the LIMIT parse. |
| Text.EqualsIgnoreCaseIsLowerEquality | src/main/java/org/verdictdb/coordinator/ScramblingCoordinator.java:165-169 | Comparing names ignoring case holds iff their lower-cased forms are equal, in both directions. |
| AggCombiner.ComposeUnionQuery | src/main/java/org/verdictdb/core/querying/ola/AggCombinerExecutionNode.java:81-135 | Succeeds iff every item is aliased; otherwise it fails at the first unaliased item. The output has the same length, and each output item is the per-item rewrite of the input item at that position, with the same alias. max/min keep their operator over `unionTable.<alias>`, and every other aggregate becomes sum. A non-aggregate item becomes the plain union column. The group-by list is the non-aggregate aliases in order. The source is the UNION ALL of `select *` from both bases, aliased "unionTable". |
| AggCombiner.RewriteItem | src/main/java/org/verdictdb/core/querying/ola/AggCombinerExecutionNode.java:88-111 | An item keeps its alias. An aggregate item becomes its combiner operator (max, min or sum) over the union column, and a non-aggregate item becomes the union column. |
| AggCombiner.GroupAliasesMembership | src/main/java/org/verdictdb/core/querying/ola/AggCombinerExecutionNode.java:105-111 | An alias is a group-by key iff some aliased non-aggregate item carries it. |
| AggCombiner.ReaggregationIsExact | src/main/java/org/verdictdb/core/querying/ola/AggCombinerExecutionNode.java:88-104 | Applying the combiner's operator to two partial sums, counts, maxima or minima gives the aggregate over the union of both partitions' rows. |
| AggCombiner.CreateQuery | src/main/java/org/verdictdb/core/querying/ola/AggCombinerExecutionNode.java:138-157 | Succeeds iff no token holds a non-metadata "aggMeta". Tokens without metadata are skipped. Cubes accumulate in token order after the node's own cubes. The single-valued fields end as those of the last token that carries metadata, or stay unchanged when none does. |
| AggCombiner.CreateToken | src/main/java/org/verdictdb/core/querying/ola/AggCombinerExecutionNode.java:159-165 | The token holds the node's metadata under "aggMeta" and its query under "dependentQuery". Every other entry of the base token is unchanged. |
| AggCombiner.CreatedTokensCarryTheirMeta | src/main/java/org/verdictdb/core/querying/ola/AggCombinerExecutionNode.java:139-165 | Tokens made by `createToken` are well typed, and the carriers `createQuery` absorbs from them are exactly the producing nodes' metadata, in order. |
| AggCombiner.GeneratedAliasesDistinct | src/main/java/org/verdictdb/core/querying/ola/AggCombinerExecutionNode.java:53-54 | Two successive generated aliases differ. |
| AggCombiner.Create | src/main/java/org/verdictdb/core/querying/ola/AggCombinerExecutionNode.java:42-71 | The two placeholder aliases are the generator's next two names, so they are distinct. The left node subscribes only to the left placeholder and the right node only to the right one. The call succeeds iff every select item is aliased; then each select item is the union rewrite of the matching item of the right query, the FROM list is the union of the two placeholders, the GROUP BY lists the non-aggregate aliases, and the generator advances by two. |
| ExactRelation.GroupbyChain | core/src/main/java/edu/umich/verdict/relation/ExactRelation.java:295-312 | The relation below the group-by chain is not grouped. A relation that is not grouped gives no group-by items and itself. |
| ExactRelation.AllPrecedingGroupbys | core/src/main/java/edu/umich/verdict/relation/ExactRelation.java:300-312 | The loop returns the concatenated group-by lists of the maximal grouping chain, outermost first, and the first non-grouped relation. The result is `([], r)` when `r` is not grouped. |
| ExactRelation.Conjoin | core/src/main/java/edu/umich/verdict/relation/ExactRelation.java:324-328 | The conjunction is absent exactly for no conditions. |
| ExactRelation.AllPrecedingFilters | core/src/main/java/edu/umich/verdict/relation/ExactRelation.java:319-335 | The condition is absent iff `r` is not filtered. Otherwise it is the left-nested AND of the chain's filters, outermost first, together with the first non-filtered relation. |
| ExactRelation.SourceExpr | core/src/main/java/edu/umich/verdict/relation/ExactRelation.java:337-349 | A single table renders as its table name and a join as its join clause. Anything else renders as `(` sql `) AS ` alias, using a fresh alias when none is set. |
| ExactRelation.DefaultFindSample | core/src/main/java/edu/umich/verdict/relation/ExactRelation.java:267-269 | The default candidate list is empty. |
| ExactRelation.FoldCandidatesAppend | core/src/main/java/edu/umich/verdict/relation/ExactRelation.java:283-285 | Folding the candidate lists is a left fold: folding a concatenation folds its parts in order. |
| ExactRelation.Consolidate | core/src/main/java/edu/umich/verdict/relation/ExactRelation.java:278-289 | The plan is `bestPlan` of the candidate lists folded into the empty working set in list order. |
| RelationGen.SplitSelectList | core/src/main/java/edu/umich/verdict/relation/ExactRelation.java:479-495 | `both` is the select list. nonagg and agg are its non-aggregate and aggregate elements in order. Their lengths add up to the whole, and every element lies on exactly the side its classification picks. |
| RelationGen.KeepPartitions | core/src/main/java/edu/umich/verdict/relation/ExactRelation.java:484-491 | Splitting by classification loses and duplicates nothing. |
| RelationGen.ProjectAliases | core/src/main/java/edu/umich/verdict/relation/ExactRelation.java:459-466 | An aliased element is projected as a reference to its alias, and an unaliased one unchanged, position by position. |
| RelationGen.FindJoinCondition | core/src/main/java/edu/umich/verdict/relation/ExactRelation.java:409-418 | Without a WHERE clause no join condition is found. For a single table a condition found by table name is used; only when none is found is the search repeated by the table's alias, and without an alias there is none. For any other source the search is by the new join node's alias, and without one there is none. |
| RelationGen.JoinStep | core/src/main/java/edu/umich/verdict/relation/ExactRelation.java:405-438 | The new join has what came before on the left and the new source on the right. A found condition is attached to the join and removed from the residual WHERE; otherwise the WHERE is unchanged. The source's table name and alias are appended to the joined names. |
| RelationGen.BuildFromIsLeftDeep | core/src/main/java/edu/umich/verdict/relation/ExactRelation.java:401-439 | The FROM sources are joined left-deep, in order. |
| RelationGen.BuildFromWithoutWhere | core/src/main/java/edu/umich/verdict/relation/ExactRelation.java:410-427 | Without WHERE, no join gets a condition and no residual WHERE remains. |
| RelationGen.BuildFromNames | core/src/main/java/edu/umich/verdict/relation/ExactRelation.java:432-438 | The joined-name list is every source's table name and alias, in source order. |
| RelationGen.QuerySpecificationRelation | core/src/main/java/edu/umich/verdict/relation/ExactRelation.java:386-473 | From the inside out, the tree holds: the left-deep join of the sources; a Filtered node iff a residual WHERE remains; a Grouped node iff GROUP BY is present; an Aggregated node, with the generated alias, iff there are aggregate elements; and always a Projected node on top, projecting alias references in the aggregate case. |
| RelationGen.HelpersRecoverClauses | core/src/main/java/edu/umich/verdict/relation/ExactRelation.java:300-335 | On a generated tree, the chain walks return exactly the GROUP BY items and the residual WHERE, and end at the joined sources. |
| RelationGen.OrderByExprs | core/src/main/java/edu/umich/verdict/relation/ExactRelation.java:370-374 | Each ORDER BY item keeps its expression and is DESC exactly when marked descending, else ASC. |
| RelationGen.SelectStatementRelation | core/src/main/java/edu/umich/verdict/relation/ExactRelation.java:366-383 | ORDER BY wraps the query before LIMIT. A LIMIT text that is not an int is an error, and otherwise its value is the limit. |
| InsertQueryToSql.QuoteName | src/main/java/org/verdictdb/sqlwriter/InsertQueryToSql.java:65-68 | The quoted name is the quote string, the name, and the quote string again. |
| InsertQueryToSql.QuoteNameRoundTrip | src/main/java/org/verdictdb/sqlwriter/InsertQueryToSql.java:65-68 | Stripping the quotes gives back the name. |
| InsertQueryToSql.QuoteNamePostgresql | src/main/java/org/verdictdb/sqlsyntax/PostgresqlSyntax.java:53-55 | With PostgreSQL's quote string a name is wrapped in double quotes. |
| InsertQueryToSql.RenderValue | src/main/java/org/verdictdb/sqlwriter/InsertQueryToSql.java:53-57 | A string value is wrapped in single quotes with no escaping. Any other value is rendered as its string form. |
| InsertQueryToSql.ToSql | src/main/java/org/verdictdb/sqlwriter/InsertQueryToSql.java:33-63 | Succeeds iff no value is null; otherwise it fails at the first null. The statement is the header, then the rendered values with ", " between consecutive ones, then ")". |
| InsertQueryToSql.StatementShape | src/main/java/org/verdictdb/sqlwriter/InsertQueryToSql.java:41-60 | The statement starts with `insert into `, the quoted schema, a dot and the quoted table, followed by ` values (`, and ends with `)`. An empty list gives `values ()`. For n values the length counts n-1 separators. |
| Text.JoinLength | src/main/java/org/verdictdb/sqlwriter/InsertQueryToSql.java:48-59 | n pieces joined carry exactly n-1 separators. |
| SparkDataTypeConverter.TypeInt | src/main/java/org/verdictdb/connection/SparkDataTypeConverter.java:25-54 | Exactly the unlisted types give OTHER. Exactly binary gives BIT and exactly boolean gives BOOLEAN. Exactly byte and short give SMALLINT. |
| SparkDataTypeConverter.TypeIntCollisions | src/main/java/org/verdictdb/connection/SparkDataTypeConverter.java:25-54 | Two types share a code iff they are of the same kind, or both are byte/short, or both are unlisted. |
| SparkDataTypeConverter.TypeIntNotInjective | src/main/java/org/verdictdb/connection/SparkDataTypeConverter.java:42-49 | Byte and short are different types with the same code. |
| SparkDataTypeConverter.TypeClassName | src/main/java/org/verdictdb/connection/SparkDataTypeConverter.java:57-81 | Exactly the codes without a class of their own give "java.lang.Object". Exactly BIT and BOOLEAN give "java.lang.Boolean". |
| SparkDataTypeConverter.TypeClassNameCollisions | src/main/java/org/verdictdb/connection/SparkDataTypeConverter.java:57-81 | Two codes share a class name iff they are equal, or both are BIT/BOOLEAN, or both lack a class of their own. |
| SparkDataTypeConverter.ComposedClassNames | src/main/java/org/verdictdb/connection/SparkDataTypeConverter.java:25-81 | Integer, long and string columns report Integer, Long and String. Byte and short columns report Short. Exactly binary and boolean report Boolean. Exactly arrays, structs and unlisted types report Object. |
| AggregateGroup.Make | src/main/java/org/verdictdb/core/aggresult/AggregateGroup.java:33-39 | The stored names have the input's length. Each equals its input name ignoring case and has no capital letter. The values are stored as given. |
| AggregateGroup.Empty | src/main/java/org/verdictdb/core/aggresult/AggregateGroup.java:49-51 | The empty group has no names and no values. |
| AggregateGroup.MakeEqualsIffNamesEqualIgnoringCase | src/main/java/org/verdictdb/core/aggresult/AggregateGroup.java:33-75 | Two constructed groups are equal iff their input names agree pointwise ignoring case and their values are equal as lists. |
| AggregateGroup.MakeIdempotent | src/main/java/org/verdictdb/core/aggresult/AggregateGroup.java:33-39 | Rebuilding a group from its own attributes gives the same group. |
| AggregateGroup.EqualGroupsHashEqually | src/main/java/org/verdictdb/core/aggresult/AggregateGroup.java:53-75 | Equal groups have equal hash codes, whenever the values' hashCode agrees with their equals. |
| JavaHash.AttributeListsHash | src/main/java/org/verdictdb/core/aggresult/AggregateGroup.java:53-60 | The hash code both group classes compute, wrapping to a Java int after each step as Java's `int` arithmetic does, equals 31 * (31 + the names' list hash) + the values' list hash computed exactly and wrapped once to an int. |
| JavaHash.AttributeListsHashRespectsEquality | src/main/java/org/verdictdb/core/resultset/ResultSetGroup.java:23-30 | Equal names and values that are equal by `List.equals` give equal group hash codes, whenever the values' hashCode agrees with their equals. |
| AggregateGroup.EmptyHashCode | src/main/java/org/verdictdb/core/aggresult/AggregateGroup.java:49-60 | The empty group hashes to 31 * (31 + 1) + 1 = 993. |
| JavaHash.ListHashRespectsEquality | src/main/java/org/verdictdb/core/aggresult/AggregateGroup.java:57-58 | Lists that are equal element by element have equal list hash codes. |
| ResultSetGroup.Empty | src/main/java/org/verdictdb/core/resultset/ResultSetGroup.java:19-21 | The empty group has no names and no values. |
| ResultSetGroup.EqualsReflexive | src/main/java/org/verdictdb/core/resultset/ResultSetGroup.java:32-52 | Every group equals itself, whenever the values' `equals` is reflexive. |
| ResultSetGroup.EqualsNeedsIdenticalNames | src/main/java/org/verdictdb/core/resultset/ResultSetGroup.java:40-45 | Groups whose names differ in any way, case included, are not equal. |
| ResultSetGroup.EqualGroupsHashEqually | src/main/java/org/verdictdb/core/resultset/ResultSetGroup.java:23-52 | Equal groups have equal hash codes, whenever the values' hashCode agrees with their equals. |
| ResultSetGroup.CaseSeparatesOnlyResultSetGroups | src/main/java/org/verdictdb/core/resultset/ResultSetGroup.java:14-17 | Names "Year" and "year" with equal values give two distinct result-set groups but equal aggregate groups. |

## Left out

- Plan creation and execution (`ScramblingPlan.create`, `ExecutablePlanRunner.runTillEnd`) and the scrambling methods' statistics are one function parameter, because they run against the database. The statistics are block count, tier count and per-tier distributions.
- The database connection, the superclass `CreateTableAsSelectNode` (its own `createQuery`, `createToken` and placeholder/ticket creation), ticket broadcasting and `SamplePlans`/`SampleGroup` are parameters or left out, because their code is not part of this model.
- `ExecutionContext.java`, `DbmsHive.java`, `StarExpr.java` and the `approx*` helpers of `ExactRelation` are not modelled. They are statement dispatch, JDBC plumbing, a trivial `toString`, and database calls with floating-point casts.
- `PostgresqlSyntax.java` is represented only by its quote string. Its metadata SQL is I/O.
- ANTLR parsing, `TableSourceExtractor` and `Cond.from`/`Expr.from` are not modelled. The parsed parts arrive as values, and expressions and conditions are opaque text.
- RelationGen.QuerySpecificationRelation: requires at least one FROM source. Without one, the source stacks its nodes over a null relation, which the model does not represent.
- RelationGen.JoinStep: the exception `setJoinCond` may raise, which the source logs and ignores, is not modelled, and the condition is always attached.
- AggCombiner.CreateQuery: after a token with a wrongly typed "aggMeta" the source has already changed the node's metadata for the earlier tokens. The model reports only the failure.
- AggCombiner.Create: the alias generator is a prefix plus a running serial number. `IdCreator` itself is not part of this model. On failure the model returns no generator, while the source's shared generator has already advanced by two and both placeholder tables exist before the cast of an unaliased select item fails.
- Text.EqualsIgnoreCaseIsLowerEquality: case mapping covers ASCII letters only. Java's locale- and Unicode-aware `toLowerCase`/`equalsIgnoreCase` is not modelled.
- ScramblingCoordinator.ConstructorBlockSizeReachesMethod: claimed only for block sizes of at most 2^53 in magnitude. Java's double rounds larger longs, for example 9007199254740993 becomes 9007199254740992, and the model's exact parse does not round.
- JavaNumbers.ParseDoubleToLongOfIntToString: claimed only for magnitudes of at most 2^53, where Java's double is exact. Decimal literals are evaluated exactly, without rounding to a 64-bit double. Values that need more than 53 significant bits, and hexadecimal floating-point literals, are not modelled.
- ResultSetGroup.EqualsReflexive: object identity is not represented, so neither is the `this == obj` shortcut at the head of both groups' `equals`. With it, Java makes a group equal to itself even when the values' `equals` is not reflexive, while the model needs that reflexivity.
- JavaNumbers.ParseInt: accepts ASCII digits only. `Integer.valueOf` also accepts any Unicode decimal digit through `Character.digit`; the LIMIT number token of the query grammar is ASCII, so such text does not reach it from a parsed query.
- JavaNumbers.ParseDoubleToLong: decimal literals are evaluated exactly, without rounding to a 64-bit double, and hexadecimal floating-point literals are rejected. So `ScramblingCoordinator.PrepareRequest` and `Scramble` differ from Java on such block-size options: "0x1p3" is a malformed block size in the model and 8 in Java, and "9007199254740993.7" gives 9007199254740993 in the model and 9007199254740994 in Java.
- JavaHash.AttributeListsHash: `String.hashCode` sums characters as Unicode scalar values, not UTF-16 code units. The two agree on the Basic Multilingual Plane.
- Java `null` lists, names, keys and option values are not modelled; the only nulls represented are null insert values and, as `Option`, the coordinator's scramble schema, scratchpad schema and block size and the primary column, and neither is `equals` against objects of another class.
- The test files need live Postgres, H2 or Impala connections and are not modelled.
