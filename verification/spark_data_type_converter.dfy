/** The mapping from Spark SQL data types to `java.sql.Types` codes and from
    those codes to the Java class reported for a column. */
module SparkDataTypeConverter {

  /** Spark SQL's data types: the fourteen the converter names, and the rest. */
  datatype SparkType =
    | BinaryType
    | BooleanType
    | DateType
    | StringType
    | TimestampType
    | DecimalType(precision: nat, scale: nat)
    | DoubleType
    | FloatType
    | ByteType
    | IntegerType
    | LongType
    | ShortType
    | ArrayType(elementType: SparkType, containsNull: bool)
    | StructType(fieldTypes: seq<SparkType>)
    | NullType
    | MapType(keyType: SparkType, valueType: SparkType)
    | CalendarIntervalType
    | UserDefinedType(className: string)

  /** `java.sql.Types` codes. */
  const BIT: int := -7
  const BOOLEAN: int := 16
  const DATE: int := 91
  const VARCHAR: int := 12
  const TIMESTAMP: int := 93
  const DECIMAL: int := 3
  const DOUBLE: int := 8
  const FLOAT: int := 6
  const SMALLINT: int := 5
  const INTEGER: int := 4
  const BIGINT: int := -5
  const ARRAY: int := 2003
  const STRUCT: int := 2002
  const OTHER: int := 1111

  /** The types the converter gives a code of their own. */
  predicate Listed(t: SparkType) {
    !(t.NullType? || t.MapType? || t.CalendarIntervalType? || t.UserDefinedType?)
  }

  /** Same constructor, whatever the parameters. */
  predicate SameKind(t: SparkType, u: SparkType) {
    || (t.BinaryType? && u.BinaryType?)
    || (t.BooleanType? && u.BooleanType?)
    || (t.DateType? && u.DateType?)
    || (t.StringType? && u.StringType?)
    || (t.TimestampType? && u.TimestampType?)
    || (t.DecimalType? && u.DecimalType?)
    || (t.DoubleType? && u.DoubleType?)
    || (t.FloatType? && u.FloatType?)
    || (t.ByteType? && u.ByteType?)
    || (t.IntegerType? && u.IntegerType?)
    || (t.LongType? && u.LongType?)
    || (t.ShortType? && u.ShortType?)
    || (t.ArrayType? && u.ArrayType?)
    || (t.StructType? && u.StructType?)
  }

  predicate IsSmallInteger(t: SparkType) {
    t.ByteType? || t.ShortType?
  }

  /** `typeInt`. */
  function TypeInt(t: SparkType): (code: int)
    ensures code == OTHER <==> !Listed(t)
    ensures t.BinaryType? <==> code == BIT
    ensures t.BooleanType? <==> code == BOOLEAN
    ensures IsSmallInteger(t) <==> code == SMALLINT
  {
    match t
    case BinaryType => BIT
    case BooleanType => BOOLEAN
    case DateType => DATE
    case StringType => VARCHAR
    case TimestampType => TIMESTAMP
    case DecimalType(_, _) => DECIMAL
    case DoubleType => DOUBLE
    case FloatType => FLOAT
    case ByteType => SMALLINT
    case IntegerType => INTEGER
    case LongType => BIGINT
    case ShortType => SMALLINT
    case ArrayType(_, _) => ARRAY
    case StructType(_) => STRUCT
    case _ => OTHER
  }

  /** Two types share a code exactly when they are of the same kind, both
      byte/short, or both unlisted: the mapping is not injective. */
  lemma TypeIntCollisions(t: SparkType, u: SparkType)
    ensures TypeInt(t) == TypeInt(u) <==>
              SameKind(t, u) || (IsSmallInteger(t) && IsSmallInteger(u)) || (!Listed(t) && !Listed(u))
  {
  }

  lemma TypeIntNotInjective()
    ensures ByteType != ShortType && TypeInt(ByteType) == TypeInt(ShortType)
  {
  }

  /** The codes `typeClassName` gives a class of their own. */
  const NamedCodes: set<int> := {VARCHAR, BIT, BOOLEAN, DATE, TIMESTAMP, DECIMAL, DOUBLE, FLOAT, SMALLINT, INTEGER, BIGINT}

  /** `typeClassName`. */
  function TypeClassName(code: int): (name: string)
    ensures name == "java.lang.Object" <==> code !in NamedCodes
    ensures name == "java.lang.Boolean" <==> code == BIT || code == BOOLEAN
  {
    if code == VARCHAR then "java.lang.String"
    else if code == BIT || code == BOOLEAN then "java.lang.Boolean"
    else if code == DATE then "java.sql.Date"
    else if code == TIMESTAMP then "java.sql.Timestamp"
    else if code == DECIMAL then "java.math.BigDecimal"
    else if code == DOUBLE then "java.lang.Double"
    else if code == FLOAT then "java.lang.Float"
    else if code == SMALLINT then "java.lang.Short"
    else if code == INTEGER then "java.lang.Integer"
    else if code == BIGINT then "java.lang.Long"
    else "java.lang.Object"
  }

  /** Distinct codes get distinct class names, except BIT/BOOLEAN and the
      codes without a class of their own. */
  lemma TypeClassNameCollisions(a: int, b: int)
    ensures TypeClassName(a) == TypeClassName(b) <==>
              a == b || ({a, b} <= {BIT, BOOLEAN}) || (a !in NamedCodes && b !in NamedCodes)
  {
  }

  /** The class reported for a Spark column: arrays, structs and unlisted
      types become `java.lang.Object`, binary data `java.lang.Boolean`, and
      bytes `java.lang.Short`. */
  lemma ComposedClassNames(t: SparkType)
    ensures t.IntegerType? ==> TypeClassName(TypeInt(t)) == "java.lang.Integer"
    ensures t.LongType? ==> TypeClassName(TypeInt(t)) == "java.lang.Long"
    ensures t.StringType? ==> TypeClassName(TypeInt(t)) == "java.lang.String"
    ensures IsSmallInteger(t) ==> TypeClassName(TypeInt(t)) == "java.lang.Short"
    ensures TypeClassName(TypeInt(t)) == "java.lang.Boolean" <==> t.BinaryType? || t.BooleanType?
    ensures TypeClassName(TypeInt(t)) == "java.lang.Object" <==> t.ArrayType? || t.StructType? || !Listed(t)
  {
  }
}
