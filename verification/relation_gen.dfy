/** RelationGen: builds the exact relation tree for a parsed SELECT statement.
    The parse tree arrives already reduced to its parts (the WHERE condition,
    the table sources as relations, the GROUP BY items, the select list, ORDER
    BY and LIMIT); the collaborators RelationGen consults — the aggregate
    classifier of select elements and the WHERE condition's join-condition
    search and removal — are passed in. */
module RelationGen {
  import opened Results
  import opened ExactRelation
  import JavaNumbers

  datatype Collaborators = Collaborators(
    isAgg: SelectElem -> bool,
    searchForJoinCondition: (Cond, seq<string>, string) -> Option<Cond>,
    remove: (Cond, Cond) -> Option<Cond>)

  datatype QuerySpecification = QuerySpecification(
    where: Option<Cond>, sources: seq<Rel>, groupBy: Option<seq<Expr>>, selectList: seq<SelectElem>)

  datatype OrderItem = OrderItem(expr: Expr, descending: bool)

  datatype SelectStatement = SelectStatement(query: QuerySpecification, orderBy: Option<seq<OrderItem>>, limit: Option<string>)

  // ---- The select list ----

  /** Reference definition: the elements whose aggregate classification is
      `wantAgg`, in their original order. */
  function Keep(elems: seq<SelectElem>, isAgg: SelectElem -> bool, wantAgg: bool): (r: seq<SelectElem>)
    ensures |r| <= |elems|
    ensures forall k :: 0 <= k < |r| ==> isAgg(r[k]) == wantAgg
    decreases |elems|
  {
    if |elems| == 0 then []
    else
      var last := elems[|elems| - 1];
      Keep(elems[..|elems| - 1], isAgg, wantAgg) + (if isAgg(last) == wantAgg then [last] else [])
  }

  /** `SelectListExtractor`: non-aggregate elements, aggregate elements and
      all of them, each in select-list order. */
  method SplitSelectList(elems: seq<SelectElem>, isAgg: SelectElem -> bool)
    returns (nonagg: seq<SelectElem>, agg: seq<SelectElem>, both: seq<SelectElem>)
    ensures both == elems
    ensures nonagg == Keep(elems, isAgg, false)
    ensures agg == Keep(elems, isAgg, true)
    ensures forall e :: e in nonagg ==> !isAgg(e)
    ensures forall e :: e in agg ==> isAgg(e)
    ensures |nonagg| + |agg| == |elems|
    ensures forall e :: e in elems <==> (if isAgg(e) then e in agg else e in nonagg)
  {
    nonagg, agg, both := [], [], [];
    var i := 0;
    while i < |elems|
      invariant 0 <= i <= |elems|
      invariant both == elems[..i]
      invariant nonagg == Keep(elems[..i], isAgg, false)
      invariant agg == Keep(elems[..i], isAgg, true)
    {
      var e := elems[i];
      assert elems[..i + 1][..i] == elems[..i];
      if isAgg(e) {
        agg := agg + [e];
      } else {
        nonagg := nonagg + [e];
      }
      both := both + [e];
      i := i + 1;
    }
    assert elems[..i] == elems;
    KeepPartitions(elems, isAgg);
  }

  /** Every element is kept on exactly one side: the side its classification
      picks. */
  lemma {:induction false} KeepPartitions(elems: seq<SelectElem>, isAgg: SelectElem -> bool)
    ensures |Keep(elems, isAgg, false)| + |Keep(elems, isAgg, true)| == |elems|
    ensures forall e :: e in elems <==> e in Keep(elems, isAgg, isAgg(e))
    decreases |elems|
  {
    if |elems| > 0 {
      var init, last := elems[..|elems| - 1], elems[|elems| - 1];
      KeepPartitions(init, isAgg);
      assert elems == init + [last];
      forall e
        ensures e in elems <==> e in Keep(elems, isAgg, isAgg(e))
      {
        assert Keep(elems, isAgg, isAgg(e)) == Keep(init, isAgg, isAgg(e)) + (if isAgg(last) == isAgg(e) then [last] else []);
      }
    }
  }

  /** In the aggregate case, an aliased element is projected as a reference to
      its alias and an unaliased one as it is. */
  function ProjectAliases(elems: seq<SelectElem>): (r: seq<SelectElem>)
    ensures |r| == |elems|
    ensures forall k :: 0 <= k < |elems| && elems[k].alias.Some? ==>
              r[k] == SelectElem(Expr(elems[k].alias.value), elems[k].alias)
    ensures forall k :: 0 <= k < |elems| && elems[k].alias.None? ==> r[k] == elems[k]
  {
    seq(|elems|, k requires 0 <= k < |elems| =>
      if elems[k].alias.Some? then SelectElem(Expr(elems[k].alias.value), elems[k].alias) else elems[k])
  }

  // ---- The FROM clause ----

  /** The relation built so far, the residual WHERE condition and the names
      (table names and aliases) of the sources joined so far. */
  datatype FromState = FromState(rel: Rel, where: Option<Cond>, joinedNames: seq<string>)

  function NamesOf(r: Rel): seq<string> {
    (if r.Single? then [r.table.tableName] else []) + (if r.alias.Some? then [r.alias.value] else [])
  }

  /** The join condition looked up for joining `next` to what came before: by
      the table name of a single table, then by its alias; for any other source
      by the alias of the new join node. */
  function FindJoinCondition(st: FromState, next: Rel, join: Rel, col: Collaborators): (j: Option<Cond>)
    ensures st.where.None? ==> j.None?
    ensures next.Single? && st.where.Some? ==>
              var byName := col.searchForJoinCondition(st.where.value, st.joinedNames, next.table.tableName);
              && (byName.Some? ==> j == byName)
              && (byName.None? ==>
                    j == (if next.alias.Some? then col.searchForJoinCondition(st.where.value, st.joinedNames, next.alias.value) else None))
    ensures !next.Single? && st.where.Some? ==>
              j == (if join.alias.Some? then col.searchForJoinCondition(st.where.value, st.joinedNames, join.alias.value) else None)
  {
    if next.Single? && st.where.Some? then
      var j := col.searchForJoinCondition(st.where.value, st.joinedNames, next.table.tableName);
      if j.None? && next.alias.Some? then col.searchForJoinCondition(st.where.value, st.joinedNames, next.alias.value) else j
    else if join.alias.Some? && st.where.Some? then
      col.searchForJoinCondition(st.where.value, st.joinedNames, join.alias.value)
    else None
  }

  /** One further FROM source: joined to the right of what came before; a
      join condition found for it is attached to the join and removed from the
      residual WHERE. A new join node has no alias yet. */
  function JoinStep(st: FromState, next: Rel, col: Collaborators): (r: FromState)
    ensures r.rel.Joined? && r.rel.left == st.rel && r.rel.right == next && r.rel.alias.None?
    ensures r.rel.joinCond == FindJoinCondition(st, next, Joined(st.rel, next, None, None), col)
    ensures r.rel.joinCond.Some? ==> st.where.Some? && r.where == col.remove(st.where.value, r.rel.joinCond.value)
    ensures r.rel.joinCond.None? ==> r.where == st.where
    ensures r.joinedNames == st.joinedNames + NamesOf(next)
  {
    var join := Joined(st.rel, next, None, None);
    var j := FindJoinCondition(st, next, join, col);
    if j.Some? then
      FromState(Joined(st.rel, next, j, None), col.remove(st.where.value, j.value), st.joinedNames + NamesOf(next))
    else
      FromState(join, st.where, st.joinedNames + NamesOf(next))
  }

  function BuildFrom(sources: seq<Rel>, where: Option<Cond>, col: Collaborators): FromState
    requires |sources| > 0
    decreases |sources|
  {
    if |sources| == 1 then FromState(sources[0], where, NamesOf(sources[0]))
    else JoinStep(BuildFrom(sources[..|sources| - 1], where, col), sources[|sources| - 1], col)
  }

  /** `r` joins `sources` left-deep, in order: ((s0 ⋈ s1) ⋈ s2) ⋈ ... */
  predicate LeftDeepJoinOf(r: Rel, sources: seq<Rel>)
    decreases |sources|
  {
    && |sources| > 0
    && if |sources| == 1 then r == sources[0]
       else r.Joined? && r.alias.None? && r.right == sources[|sources| - 1] && LeftDeepJoinOf(r.left, sources[..|sources| - 1])
  }

  lemma {:induction false} BuildFromIsLeftDeep(sources: seq<Rel>, where: Option<Cond>, col: Collaborators)
    requires |sources| > 0
    ensures LeftDeepJoinOf(BuildFrom(sources, where, col).rel, sources)
    decreases |sources|
  {
    if |sources| > 1 {
      BuildFromIsLeftDeep(sources[..|sources| - 1], where, col);
    }
  }

  /** Without a WHERE clause no join condition is found and none remains. */
  lemma {:induction false} BuildFromWithoutWhere(sources: seq<Rel>, col: Collaborators)
    requires |sources| > 0
    ensures BuildFrom(sources, None, col).where.None?
    ensures |sources| > 1 ==> BuildFrom(sources, None, col).rel.joinCond.None?
    decreases |sources|
  {
    if |sources| > 1 {
      BuildFromWithoutWhere(sources[..|sources| - 1], col);
    }
  }

  /** The joined-name list holds the names of every source, in source order. */
  lemma {:induction false} BuildFromNames(sources: seq<Rel>, where: Option<Cond>, col: Collaborators)
    requires |sources| > 0
    ensures BuildFrom(sources, where, col).joinedNames == AllNames(sources)
    decreases |sources|
  {
    if |sources| > 1 {
      BuildFromNames(sources[..|sources| - 1], where, col);
    }
  }

  function AllNames(sources: seq<Rel>): seq<string>
    decreases |sources|
  {
    if |sources| == 0 then [] else AllNames(sources[..|sources| - 1]) + NamesOf(sources[|sources| - 1])
  }

  // ---- The query specification ----

  /** `visitQuery_specification`: from the inside out, the joined sources, a
      filter iff a residual WHERE remains, a grouping iff GROUP BY is present,
      an aggregation iff some select element is an aggregate, and always a
      projection on top. `freshAlias` is the alias generator's next name, given
      to the aggregation. */
  function QuerySpecificationRelation(spec: QuerySpecification, col: Collaborators, freshAlias: string): (r: Rel)
    requires |spec.sources| > 0
    ensures r.Projected? && r.alias.None?
    ensures var agg := Keep(spec.selectList, col.isAgg, true);
            |agg| > 0 ==> r.source.Aggregated? && r.source.elems == agg && r.source.alias == Some(freshAlias)
                          && r.elems == ProjectAliases(spec.selectList)
    ensures |Keep(spec.selectList, col.isAgg, true)| == 0 ==> r.elems == spec.selectList
    ensures var g := if |Keep(spec.selectList, col.isAgg, true)| > 0 && r.source.Aggregated? then r.source.source else r.source;
            var from := BuildFrom(spec.sources, spec.where, col);
            var f := if spec.groupBy.Some? && g.Grouped? then g.source else g;
            var j := if from.where.Some? && f.Filtered? then f.source else f;
            && (spec.groupBy.Some? ==> g.Grouped? && g.groupby == spec.groupBy.value && g.alias.None?)
            && (from.where.Some? ==> f.Filtered? && f.filter == from.where.value && f.alias.None?)
            && j == from.rel
            && LeftDeepJoinOf(j, spec.sources)
  {
    BuildFromIsLeftDeep(spec.sources, spec.where, col);
    var from := BuildFrom(spec.sources, spec.where, col);
    var filtered := if from.where.Some? then Filtered(from.rel, from.where.value, None) else from.rel;
    var grouped := if spec.groupBy.Some? then Grouped(filtered, spec.groupBy.value, None) else filtered;
    var agg := Keep(spec.selectList, col.isAgg, true);
    if |agg| > 0 then
      Projected(Aggregated(grouped, agg, Some(freshAlias)), ProjectAliases(spec.selectList), None)
    else
      Projected(grouped, spec.selectList, None)
  }

  /** The chain helpers read the generated tree back: below the aggregation
      (or the projection), the group-by chain yields exactly the GROUP BY items
      and the filter chain exactly the residual WHERE, ending at the joined
      sources, provided the sources themselves do not start with a grouping
      or filtering node. */
  lemma {:induction false} HelpersRecoverClauses(spec: QuerySpecification, col: Collaborators, freshAlias: string)
    requires |spec.sources| > 0
    requires var from := BuildFrom(spec.sources, spec.where, col).rel; !from.Grouped? && !from.Filtered?
    ensures var r := QuerySpecificationRelation(spec, col, freshAlias);
            var g := if |Keep(spec.selectList, col.isAgg, true)| > 0 && r.source.Aggregated? then r.source.source else r.source;
            var from := BuildFrom(spec.sources, spec.where, col);
            var chain := GroupbyChain(g);
            && chain.0 == (if spec.groupBy.Some? then spec.groupBy.value else [])
            && FilterChain(chain.1).1 == from.rel
            && Conjoin(FilterChain(chain.1).0) == from.where
  {
    var r := QuerySpecificationRelation(spec, col, freshAlias);
    var g := if |Keep(spec.selectList, col.isAgg, true)| > 0 && r.source.Aggregated? then r.source.source else r.source;
    var from := BuildFrom(spec.sources, spec.where, col);
    var f := if spec.groupBy.Some? && g.Grouped? then g.source else g;
    assert !f.Grouped?;
    if spec.groupBy.Some? {
      assert GroupbyChain(g) == (spec.groupBy.value + [], f);
    }
    assert GroupbyChain(g).1 == f;
    assert FilterChain(from.rel) == ([], from.rel);
    if from.where.Some? {
      assert [from.where.value] + [] == [from.where.value];
      assert FilterChain(f) == ([from.where.value], from.rel);
    }
  }

  // ---- The select statement ----

  function OrderByExprs(items: seq<OrderItem>): (r: seq<OrderByExpr>)
    ensures |r| == |items|
    ensures forall k :: 0 <= k < |items| ==>
              r[k].expr == items[k].expr && r[k].direction == (if items[k].descending then "DESC" else "ASC")
  {
    seq(|items|, k requires 0 <= k < |items| => OrderByExpr(items[k].expr, if items[k].descending then "DESC" else "ASC"))
  }

  /** `visitSelect_statement`: the query specification, wrapped first by an
      ordering if ORDER BY is present and then by a limit if LIMIT is present;
      a LIMIT text that `Integer.valueOf` rejects is an error. */
  function SelectStatementRelation(stmt: SelectStatement, col: Collaborators, freshAlias: string): (r: Result<Rel, JavaNumbers.NumberFormatError>)
    requires |stmt.query.sources| > 0
    ensures r.Failure? <==> stmt.limit.Some? && JavaNumbers.ParseInt(stmt.limit.value).Failure?
    ensures r.Success? ==>
              var o := if stmt.limit.Some? && r.value.Limited? then r.value.source else r.value;
              var q := if stmt.orderBy.Some? && o.Ordered? then o.source else o;
              && (stmt.limit.Some? ==>
                    && r.value.Limited? && r.value.alias.None?
                    && JavaNumbers.ParseInt(stmt.limit.value) == Success(r.value.limit))
              && (stmt.orderBy.Some? ==> o.Ordered? && o.alias.None? && o.orderby == OrderByExprs(stmt.orderBy.value))
              && q == QuerySpecificationRelation(stmt.query, col, freshAlias)
  {
    var q := QuerySpecificationRelation(stmt.query, col, freshAlias);
    var o := if stmt.orderBy.Some? then Ordered(q, OrderByExprs(stmt.orderBy.value), None) else q;
    if stmt.limit.Some? then
      match JavaNumbers.ParseInt(stmt.limit.value)
      case Failure(e) => Failure(e)
      case Success(n) => Success(Limited(o, n, None))
    else Success(o)
  }
}
