/** Rendering of an INSERT ... VALUES statement. The dialect contributes only
    its identifier quote string, passed as `quote` (PostgreSQL's is `"`). */
module InsertQueryToSql {
  import opened Results
  import opened Text

  /** A value to insert: a string, any other object (by its `toString`), or null. */
  datatype InsertValue = StringValue(s: string) | ObjectValue(text: string) | NullValue

  datatype InsertValuesQuery = InsertValuesQuery(schemaName: string, tableName: string, values: seq<InsertValue>)

  /** Calling `toString` on a null value fails. */
  datatype InsertError = NullValueAt(position: nat)

  const PostgresqlQuote: string := "\""

  /** `quoteName`: the name between two copies of the quote string. */
  function QuoteName(quote: string, name: string): (r: string)
    ensures |r| == |name| + 2 * |quote|
    ensures r[..|quote|] == quote
    ensures r[|quote|..|quote| + |name|] == name
    ensures r[|quote| + |name|..] == quote
  {
    quote + name + quote
  }

  /** Stripping the quote strings again gives back the name. */
  function Unquote(quote: string, quoted: string): string
    requires |quoted| >= 2 * |quote|
  {
    quoted[|quote|..|quoted| - |quote|]
  }

  lemma QuoteNameRoundTrip(quote: string, name: string)
    ensures Unquote(quote, QuoteName(quote, name)) == name
  {
  }

  lemma QuoteNamePostgresql(name: string)
    ensures QuoteName(PostgresqlQuote, name) == ['"'] + name + ['"']
  {
  }

  /** A string value between single quotes, unescaped; other values by their text. */
  function RenderValue(v: InsertValue): (r: string)
    requires !v.NullValue?
    ensures v.StringValue? ==> |r| == |v.s| + 2 && r[0] == '\'' && r[|r| - 1] == '\'' && r[1..|r| - 1] == v.s
    ensures v.ObjectValue? ==> r == v.text
  {
    if v.StringValue? then "'" + v.s + "'" else v.text
  }

  predicate NoNulls(values: seq<InsertValue>) {
    forall i :: 0 <= i < |values| ==> !values[i].NullValue?
  }

  function RenderValues(values: seq<InsertValue>): (r: seq<string>)
    requires NoNulls(values)
    ensures |r| == |values|
    ensures forall i :: 0 <= i < |values| ==> r[i] == RenderValue(values[i])
  {
    seq(|values|, i requires 0 <= i < |values| => RenderValue(values[i]))
  }

  /** Everything before the value list. */
  function Header(quote: string, schemaName: string, tableName: string): string {
    "insert into " + QuoteName(quote, schemaName) + "." + QuoteName(quote, tableName) + " values ("
  }

  /** `toSql`, as the builder loop the source runs: the header, the rendered
      values with `, ` between consecutive ones, and a closing parenthesis. A
      null value is an error. */
  method ToSql(quote: string, query: InsertValuesQuery) returns (r: Result<string, InsertError>)
    ensures r.Success? <==> NoNulls(query.values)
    ensures r.Failure? ==> r.error.position < |query.values| && query.values[r.error.position].NullValue?
                           && NoNulls(query.values[..r.error.position])
    ensures r.Success? ==>
              r.value == Header(quote, query.schemaName, query.tableName) + Join(RenderValues(query.values), ", ") + ")"
  {
    var values := query.values;
    var sql := "insert into " + QuoteName(quote, query.schemaName) + "." + QuoteName(quote, query.tableName);
    sql := sql + " values (";
    var body := "";
    var isFirst := true;
    var i := 0;
    while i < |values|
      invariant 0 <= i <= |values|
      invariant NoNulls(values[..i])
      invariant isFirst <==> i == 0
      invariant body == Join(RenderValues(values[..i]), ", ")
    {
      var v := values[i];
      if v.NullValue? {
        r := Failure(NullValueAt(i));
        return;
      }
      RenderPrefixSnoc(values, i);
      if !isFirst {
        body := body + ", ";
      }
      body := body + RenderValue(v);
      isFirst := false;
      i := i + 1;
    }
    assert values[..i] == values;
    assert sql == Header(quote, query.schemaName, query.tableName);
    r := Success(sql + body + ")");
  }

  /** Rendering one more value of the list appends a separator, unless it
      is the first, and the value. */
  lemma RenderPrefixSnoc(values: seq<InsertValue>, i: nat)
    requires i < |values| && NoNulls(values[..i]) && !values[i].NullValue?
    ensures NoNulls(values[..i + 1])
    ensures Join(RenderValues(values[..i + 1]), ", ") ==
              if i == 0 then RenderValue(values[i]) else Join(RenderValues(values[..i]), ", ") + ", " + RenderValue(values[i])
  {
    assert values[..i + 1] == values[..i] + [values[i]];
    assert RenderValues(values[..i + 1]) == RenderValues(values[..i]) + [RenderValue(values[i])];
    if i > 0 {
      JoinSnoc(RenderValues(values[..i]), RenderValue(values[i]), ", ");
    }
  }

  /** The statement's shape: it starts with `insert into `, the quoted schema,
      a dot and the quoted table, then ` values (`, and ends with `)`; an empty
      value list gives `values ()`; its length is the fixed parts plus the
      rendered values plus two characters per separator. */
  lemma {:induction false} StatementShape(quote: string, query: InsertValuesQuery)
    requires NoNulls(query.values)
    ensures var sql := Header(quote, query.schemaName, query.tableName) + Join(RenderValues(query.values), ", ") + ")";
            var table := "insert into " + QuoteName(quote, query.schemaName) + "." + QuoteName(quote, query.tableName);
            && sql[..|table|] == table
            && sql[|table|..|table| + 9] == " values ("
            && sql[|sql| - 1] == ')'
            && (|query.values| == 0 ==> sql == table + " values ()")
            && (|query.values| > 0 ==>
                  |sql| == |table| + 10 + TotalLength(RenderValues(query.values)) + 2 * (|query.values| - 1))
  {
    var table := "insert into " + QuoteName(quote, query.schemaName) + "." + QuoteName(quote, query.tableName);
    var body := Join(RenderValues(query.values), ", ");
    var sql := table + " values (" + body + ")";
    assert Header(quote, query.schemaName, query.tableName) + body + ")" == sql;
    assert sql[..|table|] == table;
    assert sql[|table|..|table| + 9] == " values (";
    if |query.values| > 0 {
      JoinLength(RenderValues(query.values), ", ");
    }
  }
}
