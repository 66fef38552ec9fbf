/** The scramble coordinator: validates a scrambling request, merges its
    options over the coordinator's defaults, picks the scrambling method, hands
    the plan to the external executor and assembles the resulting ScrambleMeta.
    The executor (plan construction, plan run, and the method's block count,
    tier count and per-tier distributions it reports) is the `execute`
    parameter; a coordinator is an immutable value, so no call can change it. */
module ScramblingCoordinator {
  import opened Results
  import opened Text
  import JavaNumbers

  type Options = map<string, string>

  const TierColumnKey: string := "tierColumnName"
  const BlockColumnKey: string := "blockColumnName"
  const SuffixKey: string := "scrambleTableSuffix"
  const BlockSizeKey: string := "scrambleTableBlockSize"

  const DefaultOptions: Options := map[
    TierColumnKey := "verdictdbtier",
    BlockColumnKey := "verdictdbblock",
    SuffixKey := "_scrambled",
    BlockSizeKey := "1e6"
  ]

  /** Registered method names, in lower case. */
  const SupportedMethods: set<string> := {"uniform", "fastconverge"}

  /** The coordinator's state: the optional schemas it was built with and its
      own copy of the default options. */
  datatype Coordinator = Coordinator(scrambleSchema: Option<string>, scratchpadSchema: Option<string>, options: Options)

  /** Every default key is present: true of every coordinator `Create` builds. */
  predicate Valid(c: Coordinator) {
    DefaultOptions.Keys <= c.options.Keys
  }

  /** The four-argument constructor; the shorter ones pass `None` (Java `null`)
      for the arguments they lack (see `CreateWithSchema`). A block size, when
      given, replaces only the block-size default, written as `Long.toString`. */
  function Create(scrambleSchema: Option<string>, scratchpadSchema: Option<string>, blockSize: Option<int>): (c: Coordinator)
    ensures Valid(c)
    ensures c.scrambleSchema == scrambleSchema && c.scratchpadSchema == scratchpadSchema
    ensures c.options.Keys == DefaultOptions.Keys
    ensures forall k :: k in DefaultOptions && k != BlockSizeKey ==> c.options[k] == DefaultOptions[k]
    ensures blockSize.None? ==> c.options == DefaultOptions
    ensures blockSize.Some? ==> c.options[BlockSizeKey] == IntToString(blockSize.value)
  {
    var options := if blockSize.Some? then DefaultOptions[BlockSizeKey := IntToString(blockSize.value)] else DefaultOptions;
    Coordinator(scrambleSchema, scratchpadSchema, options)
  }

  /** The two-argument constructor uses one schema both for scrambles and as scratchpad. */
  function CreateWithSchema(scrambleSchema: Option<string>): (c: Coordinator)
    ensures Valid(c) && c.options == DefaultOptions
    ensures c.scrambleSchema == scrambleSchema && c.scratchpadSchema == scrambleSchema
  {
    Create(scrambleSchema, scrambleSchema, None)
  }

  /** The scrambling method variants and the arguments they are built with. */
  datatype Method =
    | Uniform(blockSize: int)
    | FastConverge(blockSize: int, scratchpadSchema: string)
    | FastConvergeOnColumn(blockSize: int, scratchpadSchema: string, primaryColumn: string)

  datatype ScrambleError =
    | UnsupportedMethod(name: string)
    | InvalidMethod(name: string)
    | MalformedBlockSize(text: string)
    | MissingScratchpadSchema
    | ExecutionFailed(message: string)

  /** What the coordinator hands to the executor. */
  datatype PlanRequest = PlanRequest(
    newSchema: string, newTable: string,
    originalSchema: string, originalTable: string,
    scramblingMethod: Method, options: Options)

  /** What the scrambling method reports once its plan has run. */
  datatype MethodReport = MethodReport(blockCount: int, tierCount: int, distribution: int -> seq<real>)

  datatype ScrambleMeta = ScrambleMeta(
    schemaName: string, tableName: string,
    originalSchemaName: string, originalTableName: string,
    blockColumn: string, blockCount: int,
    tierColumn: string, tierCount: int,
    cumulativeDistributions: map<int, seq<real>>)

  /** Caller options win over defaults; every key of either is kept. */
  function EffectiveOptions(defaults: Options, custom: Options): (e: Options)
    ensures e.Keys == defaults.Keys + custom.Keys
    ensures forall k :: k in custom ==> e[k] == custom[k]
    ensures forall k :: k in defaults && k !in custom ==> e[k] == defaults[k]
  {
    defaults + custom
  }

  /** Merging a map over itself, as the six-argument overload does with its
      copy of the defaults, leaves the defaults as they are. */
  lemma EffectiveOptionsOfCopy(defaults: Options)
    ensures EffectiveOptions(defaults, defaults) == defaults
  {
  }

  predicate IsSupportedName(name: string) {
    Lower(name) in SupportedMethods
  }

  /** The method decision table, applied after the block size is parsed. */
  function SelectMethod(name: string, primaryColumn: Option<string>, blockSize: int, scratchpad: Option<string>): (r: Result<Method, ScrambleError>)
    ensures EqualsIgnoreCase(name, "uniform") ==> r == Success(Uniform(blockSize))
    ensures !EqualsIgnoreCase(name, "uniform") && EqualsIgnoreCase(name, "FastConverge") ==>
              if scratchpad.None? then r == Failure(MissingScratchpadSchema)
              else r.Success? && !r.value.Uniform? && r.value.blockSize == blockSize
                   && r.value.scratchpadSchema == scratchpad.value
                   && (r.value.FastConvergeOnColumn? <==> primaryColumn.Some?)
                   && (r.value.FastConvergeOnColumn? ==> r.value.primaryColumn == primaryColumn.value)
    ensures !EqualsIgnoreCase(name, "uniform") && !EqualsIgnoreCase(name, "FastConverge") ==>
              r == Failure(InvalidMethod(name))
  {
    if EqualsIgnoreCase(name, "uniform") then Success(Uniform(blockSize))
    else if EqualsIgnoreCase(name, "FastConverge") && primaryColumn.None? then
      if scratchpad.None? then Failure(MissingScratchpadSchema)
      else Success(FastConverge(blockSize, scratchpad.value))
    else if EqualsIgnoreCase(name, "FastConverge") && primaryColumn.Some? then
      if scratchpad.None? then Failure(MissingScratchpadSchema)
      else Success(FastConvergeOnColumn(blockSize, scratchpad.value, primaryColumn.value))
    else Failure(InvalidMethod(name))
  }

  /** Everything the seven-argument `scramble` does before the executor runs:
      the name check, the option merge, the block-size parse and the method
      choice, in that order. */
  function PrepareRequest(
    c: Coordinator, originalSchema: string, originalTable: string,
    newSchema: string, newTable: string, methodName: string,
    primaryColumn: Option<string>, customOptions: Options): (r: Result<PlanRequest, ScrambleError>)
    requires Valid(c)
    ensures !IsSupportedName(methodName) ==> r == Failure(UnsupportedMethod(methodName))
    ensures IsSupportedName(methodName) ==>
              var sizeText := EffectiveOptions(c.options, customOptions)[BlockSizeKey];
              var parsed := JavaNumbers.ParseDoubleToLong(sizeText);
              && (parsed.Failure? ==> r == Failure(MalformedBlockSize(sizeText)))
              && (parsed.Success? ==>
                    var chosen := SelectMethod(methodName, primaryColumn, parsed.value, c.scratchpadSchema);
                    && (r.Success? <==> chosen.Success?)
                    && (chosen.Failure? ==> r == Failure(chosen.error)))
    ensures r.Success? ==>
              && IsSupportedName(methodName)
              && r.value.newSchema == newSchema && r.value.newTable == newTable
              && r.value.originalSchema == originalSchema && r.value.originalTable == originalTable
              && r.value.options == EffectiveOptions(c.options, customOptions)
              && JavaNumbers.ParseDoubleToLong(r.value.options[BlockSizeKey]) == Success(r.value.scramblingMethod.blockSize)
              && SelectMethod(methodName, primaryColumn, r.value.scramblingMethod.blockSize, c.scratchpadSchema) == Success(r.value.scramblingMethod)
  {
    if !IsSupportedName(methodName) then Failure(UnsupportedMethod(methodName))
    else
      var options := EffectiveOptions(c.options, customOptions);
      var sizeText := options[BlockSizeKey];
      match JavaNumbers.ParseDoubleToLong(sizeText)
      case Failure(_) => Failure(MalformedBlockSize(sizeText))
      case Success(blockSize) =>
        var chosen :- SelectMethod(methodName, primaryColumn, blockSize, c.scratchpadSchema);
        Success(PlanRequest(newSchema, newTable, originalSchema, originalTable, chosen, options))
  }

  /** The seven-argument `scramble`. */
  function Scramble(
    c: Coordinator, originalSchema: string, originalTable: string,
    newSchema: string, newTable: string, methodName: string,
    primaryColumn: Option<string>, customOptions: Options,
    execute: PlanRequest -> Result<MethodReport, string>): (r: Result<ScrambleMeta, ScrambleError>)
    requires Valid(c)
    ensures !IsSupportedName(methodName) ==> r == Failure(UnsupportedMethod(methodName))
    ensures var prepared := PrepareRequest(c, originalSchema, originalTable, newSchema, newTable, methodName, primaryColumn, customOptions);
            r.Success? <==> prepared.Success? && execute(prepared.value).Success?
    ensures var prepared := PrepareRequest(c, originalSchema, originalTable, newSchema, newTable, methodName, primaryColumn, customOptions);
            prepared.Failure? ==> r == Failure(prepared.error)
    ensures var prepared := PrepareRequest(c, originalSchema, originalTable, newSchema, newTable, methodName, primaryColumn, customOptions);
            prepared.Success? && execute(prepared.value).Failure? ==> r == Failure(ExecutionFailed(execute(prepared.value).error))
    ensures r.Success? ==>
              var options := EffectiveOptions(c.options, customOptions);
              var report := execute(PrepareRequest(c, originalSchema, originalTable, newSchema, newTable, methodName, primaryColumn, customOptions).value).value;
              && r.value.schemaName == newSchema && r.value.tableName == newTable
              && r.value.originalSchemaName == originalSchema && r.value.originalTableName == originalTable
              && r.value.blockColumn == options[BlockColumnKey] && r.value.tierColumn == options[TierColumnKey]
              && r.value.blockCount == report.blockCount && r.value.tierCount == report.tierCount
              && (forall i :: i in r.value.cumulativeDistributions <==> 0 <= i < report.tierCount)
              && (forall i :: 0 <= i < report.tierCount ==> r.value.cumulativeDistributions[i] == report.distribution(i))
  {
    var request :- PrepareRequest(c, originalSchema, originalTable, newSchema, newTable, methodName, primaryColumn, customOptions);
    match execute(request)
    case Failure(message) => Failure(ExecutionFailed(message))
    case Success(report) =>
      Success(ScrambleMeta(
        newSchema, newTable, originalSchema, originalTable,
        request.options[BlockColumnKey], report.blockCount,
        request.options[TierColumnKey], report.tierCount,
        map i | 0 <= i < report.tierCount :: report.distribution(i)))
  }

  /** The six-argument overload merges a copy of the coordinator's own options. */
  function ScrambleOnColumn(
    c: Coordinator, originalSchema: string, originalTable: string,
    newSchema: string, newTable: string, methodName: string, primaryColumn: Option<string>,
    execute: PlanRequest -> Result<MethodReport, string>): (r: Result<ScrambleMeta, ScrambleError>)
    requires Valid(c)
    ensures r == Scramble(c, originalSchema, originalTable, newSchema, newTable, methodName, primaryColumn, c.options, execute)
    ensures r.Success? ==> r.value.blockColumn == c.options[BlockColumnKey] && r.value.tierColumn == c.options[TierColumnKey]
  {
    var copy := map k | k in c.options :: c.options[k];
    assert copy == c.options;
    Scramble(c, originalSchema, originalTable, newSchema, newTable, methodName, primaryColumn, copy, execute)
  }

  /** The five-argument overload has no primary column. */
  function ScrambleWithMethod(
    c: Coordinator, originalSchema: string, originalTable: string,
    newSchema: string, newTable: string, methodName: string,
    execute: PlanRequest -> Result<MethodReport, string>): (r: Result<ScrambleMeta, ScrambleError>)
    requires Valid(c)
    ensures r == ScrambleOnColumn(c, originalSchema, originalTable, newSchema, newTable, methodName, None, execute)
  {
    ScrambleOnColumn(c, originalSchema, originalTable, newSchema, newTable, methodName, None, execute)
  }

  /** The four-argument overload uses the uniform method and no primary column. */
  function ScrambleInto(
    c: Coordinator, originalSchema: string, originalTable: string,
    newSchema: string, newTable: string,
    execute: PlanRequest -> Result<MethodReport, string>): (r: Result<ScrambleMeta, ScrambleError>)
    requires Valid(c)
    ensures r == ScrambleOnColumn(c, originalSchema, originalTable, newSchema, newTable, "uniform", None, execute)
    ensures r.Failure? ==> r.error.MalformedBlockSize? || r.error.ExecutionFailed?
  {
    LowerOfLowerCaseString("uniform");
    assert IsSupportedName("uniform");
    EqualsIgnoreCaseIsLowerEquality("uniform", "uniform");
    ScrambleOnColumn(c, originalSchema, originalTable, newSchema, newTable, "uniform", None, execute)
  }

  /** The schema a two-argument `scramble` writes to. */
  function TargetSchema(c: Coordinator, originalSchema: string): string {
    if c.scrambleSchema.Some? then c.scrambleSchema.value else originalSchema
  }

  /** The two-argument overload: scramble schema if set, else the original
      schema; table name is the original name plus the configured suffix. */
  function ScrambleTable(
    c: Coordinator, originalSchema: string, originalTable: string,
    execute: PlanRequest -> Result<MethodReport, string>): (r: Result<ScrambleMeta, ScrambleError>)
    requires Valid(c)
    ensures r == ScrambleInto(c, originalSchema, originalTable, TargetSchema(c, originalSchema), originalTable + c.options[SuffixKey], execute)
    ensures r.Success? ==> r.value.schemaName == (if c.scrambleSchema.Some? then c.scrambleSchema.value else originalSchema)
    ensures r.Success? ==> r.value.tableName == originalTable + c.options[SuffixKey]
    ensures r.Success? ==> r.value.originalSchemaName == originalSchema && r.value.originalTableName == originalTable
  {
    var newSchema := if c.scrambleSchema.Some? then c.scrambleSchema.value else originalSchema;
    ScrambleInto(c, originalSchema, originalTable, newSchema, originalTable + c.options[SuffixKey], execute)
  }

  /** A name that passes the lower-case check always matches one of the two
      method names ignoring case, so `InvalidMethod` is never raised. */
  lemma {:induction false} InvalidMethodUnreachable(
    c: Coordinator, originalSchema: string, originalTable: string,
    newSchema: string, newTable: string, methodName: string,
    primaryColumn: Option<string>, customOptions: Options)
    requires Valid(c)
    ensures PrepareRequest(c, originalSchema, originalTable, newSchema, newTable, methodName, primaryColumn, customOptions)
            != Failure(InvalidMethod(methodName))
  {
    if IsSupportedName(methodName) {
      LowerOfLowerCaseString("uniform");
      LowerOfLowerCaseString("fastconverge");
      assert Lower("FastConverge") == "fastconverge";
      EqualsIgnoreCaseIsLowerEquality(methodName, "uniform");
      EqualsIgnoreCaseIsLowerEquality(methodName, "FastConverge");
    }
  }

  /** The two ways a name can be accepted, and what each one selects. */
  lemma {:induction false} SupportedNameSelection(name: string, primaryColumn: Option<string>, blockSize: int, scratchpad: string)
    requires IsSupportedName(name)
    ensures Lower(name) == "uniform" ==> SelectMethod(name, primaryColumn, blockSize, Some(scratchpad)) == Success(Uniform(blockSize))
    ensures Lower(name) == "fastconverge" && primaryColumn.None? ==>
              SelectMethod(name, primaryColumn, blockSize, Some(scratchpad)) == Success(FastConverge(blockSize, scratchpad))
    ensures Lower(name) == "fastconverge" && primaryColumn.Some? ==>
              SelectMethod(name, primaryColumn, blockSize, Some(scratchpad)) == Success(FastConvergeOnColumn(blockSize, scratchpad, primaryColumn.value))
  {
    LowerOfLowerCaseString("uniform");
    assert Lower("FastConverge") == "fastconverge";
    EqualsIgnoreCaseIsLowerEquality(name, "uniform");
    EqualsIgnoreCaseIsLowerEquality(name, "FastConverge");
  }

  /** The default overloads on a default coordinator send the executor the
      uniform method with one million rows per block. */
  lemma {:induction false} DefaultRequestIsUniformMillion(c: Coordinator, originalSchema: string, originalTable: string, newSchema: string, newTable: string)
    requires c == Create(None, None, None)
    ensures var prepared := PrepareRequest(c, originalSchema, originalTable, newSchema, newTable, "uniform", None, c.options);
            prepared.Success? && prepared.value.scramblingMethod == Uniform(1000000) && prepared.value.options == DefaultOptions
  {
    LowerOfLowerCaseString("uniform");
    assert IsSupportedName("uniform");
    EqualsIgnoreCaseIsLowerEquality("uniform", "uniform");
    assert SelectMethod("uniform", None, 1000000, None) == Success(Uniform(1000000));
    EffectiveOptionsOfCopy(DefaultOptions);
    assert DefaultOptions[BlockSizeKey] == "1e6";
    JavaNumbers.DefaultBlockSizeIsOneMillion();
  }

  /** A block size given to the constructor is exactly the one the uniform
      method is built with. */
  lemma {:induction false} ConstructorBlockSizeReachesMethod(
    blockSize: int, scrambleSchema: Option<string>, scratchpad: Option<string>,
    originalSchema: string, originalTable: string, newSchema: string, newTable: string)
    requires -JavaNumbers.TwoTo53 <= blockSize <= JavaNumbers.TwoTo53
    ensures var c := Create(scrambleSchema, scratchpad, Some(blockSize));
            var prepared := PrepareRequest(c, originalSchema, originalTable, newSchema, newTable, "uniform", None, c.options);
            prepared.Success? && prepared.value.scramblingMethod == Uniform(blockSize)
  {
    var c := Create(scrambleSchema, scratchpad, Some(blockSize));
    LowerOfLowerCaseString("uniform");
    assert IsSupportedName("uniform");
    EqualsIgnoreCaseIsLowerEquality("uniform", "uniform");
    assert SelectMethod("uniform", None, blockSize, scratchpad) == Success(Uniform(blockSize));
    EffectiveOptionsOfCopy(c.options);
    assert c.options[BlockSizeKey] == IntToString(blockSize);
    JavaNumbers.ParseDoubleToLongOfIntToString(blockSize);
  }
}
