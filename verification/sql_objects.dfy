/** The slice of the SQL object model the combiner reads and writes: columns,
    select items, relations and select queries. Whether an item is an aggregate
    is decided by the item's own classifier, which is outside this model; the
    item carries the answer as `isAggregate`. */
module SqlObjects {

  datatype Column =
    | BaseColumn(tableSourceAlias: string, columnName: string)
    | ColumnOp(opType: string, operands: seq<Column>)
    | AliasReference(aliasName: string)
    | OtherColumn(text: string)

  datatype SelectItem =
    | AliasedColumn(column: Column, aliasName: string, isAggregate: bool)
    | UnaliasedColumn(column: Column, isAggregate: bool)
    | AsteriskColumn

  predicate IsAggregate(item: SelectItem) {
    !item.AsteriskColumn? && item.isAggregate
  }

  datatype SetOpType = UnionAll | Union | Intersect | Except

  /** A table source: a base table, a placeholder to be filled with an upstream
      node's result table, or a set operation over two queries. */
  datatype Relation =
    | BaseTable(schemaName: string, tableName: string, aliasName: string)
    | PlaceholderTable(aliasName: string)
    | SetOperation(left: SelectQuery, right: SelectQuery, opType: SetOpType, aliasName: string)

  datatype SelectQuery = SelectQuery(selectList: seq<SelectItem>, fromList: seq<Relation>, groupby: seq<Column>)

  /** `SelectQuery.create(item, relation)`. */
  function SelectFrom(item: SelectItem, relation: Relation): SelectQuery {
    SelectQuery([item], [relation], [])
  }
}
