/** The combiner node of the online-aggregation plan: it re-aggregates two
    partial aggregate results through `UNION ALL`, folds the aggregation
    metadata carried by its upstream tokens, and hands its own metadata and
    query downstream. */
module AggCombiner {
  import opened Results
  import opened Text
  import opened SqlObjects

  const UnionTableAlias: string := "unionTable"
  const AggMetaKey: string := "aggMeta"
  const DependentQueryKey: string := "dependentQuery"

  datatype CombinerError =
    | NotAliased(position: nat)   // the cast of a select item to an aliased column fails
    | AggMetaOfWrongType          // the token's "aggMeta" entry is not aggregation metadata

  /** The operator that recombines a partial aggregate computed with `op`:
      `max` and `min` keep their operator, every other aggregate is summed. */
  function CombinerOp(op: string): string {
    if op == "max" || op == "min" then op else "sum"
  }

  predicate IsMaxMinItem(item: SelectItem) {
    item.AliasedColumn? && item.column.ColumnOp? && (item.column.opType == "max" || item.column.opType == "min")
  }

  function UnionColumn(alias: string): Column {
    BaseColumn(UnionTableAlias, alias)
  }

  /** The aliases of the non-aggregate items, in select-list order. */
  function GroupAliases(items: seq<SelectItem>): (r: seq<string>)
    ensures |r| <= |items|
    decreases |items|
  {
    if |items| == 0 then []
    else
      var last := items[|items| - 1];
      GroupAliases(items[..|items| - 1]) + (if last.AliasedColumn? && !IsAggregate(last) then [last.aliasName] else [])
  }

  lemma {:induction false} GroupAliasesMembership(items: seq<SelectItem>, a: string)
    ensures a in GroupAliases(items) <==>
            exists i :: 0 <= i < |items| && items[i].AliasedColumn? && !IsAggregate(items[i]) && items[i].aliasName == a
    decreases |items|
  {
    if |items| > 0 {
      var init := items[..|items| - 1];
      GroupAliasesMembership(init, a);
      if a in GroupAliases(init) {
        var i :| 0 <= i < |init| && init[i].AliasedColumn? && !IsAggregate(init[i]) && init[i].aliasName == a;
        assert items[i] == init[i];
      }
      if exists i :: 0 <= i < |items| && items[i].AliasedColumn? && !IsAggregate(items[i]) && items[i].aliasName == a {
        var i :| 0 <= i < |items| && items[i].AliasedColumn? && !IsAggregate(items[i]) && items[i].aliasName == a;
        if i < |init| {
          assert init[i] == items[i];
        }
      }
    }
  }

  function AliasReferences(names: seq<string>): (r: seq<Column>)
    ensures |r| == |names|
    ensures forall k :: 0 <= k < |names| ==> r[k] == AliasReference(names[k])
  {
    seq(|names|, k requires 0 <= k < |names| => AliasReference(names[k]))
  }

  /** The FROM source of the combining query. */
  function UnionOf(leftBase: Relation, rightBase: Relation): Relation {
    SetOperation(SelectFrom(AsteriskColumn, leftBase), SelectFrom(AsteriskColumn, rightBase), UnionAll, UnionTableAlias)
  }

  predicate AllAliased(items: seq<SelectItem>) {
    forall i :: 0 <= i < |items| ==> items[i].AliasedColumn?
  }

  lemma GroupAliasesOfPrefix(items: seq<SelectItem>, i: nat)
    requires i < |items|
    ensures GroupAliases(items[..i + 1]) == GroupAliases(items[..i]) +
              (if items[i].AliasedColumn? && !IsAggregate(items[i]) then [items[i].aliasName] else [])
  {
    assert items[..i + 1][..i] == items[..i];
  }

  /** The re-aggregating form of one aliased select item over the union. */
  function RewriteItem(item: SelectItem): (out: SelectItem)
    requires item.AliasedColumn?
    ensures out.AliasedColumn? && out.aliasName == item.aliasName && out.isAggregate == item.isAggregate
    ensures IsAggregate(item) && IsMaxMinItem(item) ==> out.column == ColumnOp(item.column.opType, [UnionColumn(item.aliasName)])
    ensures IsAggregate(item) && !IsMaxMinItem(item) ==> out.column == ColumnOp("sum", [UnionColumn(item.aliasName)])
    ensures IsAggregate(item) && item.column.ColumnOp? ==> out.column == ColumnOp(CombinerOp(item.column.opType), [UnionColumn(item.aliasName)])
    ensures !IsAggregate(item) ==> out.column == UnionColumn(item.aliasName)
  {
    if IsAggregate(item) then
      if IsMaxMinItem(item) then AliasedColumn(ColumnOp(item.column.opType, [UnionColumn(item.aliasName)]), item.aliasName, true)
      else AliasedColumn(ColumnOp("sum", [UnionColumn(item.aliasName)]), item.aliasName, true)
    else AliasedColumn(UnionColumn(item.aliasName), item.aliasName, false)
  }

  /** The per-item rewrite, read back item by item over a whole select list. */
  lemma RewrittenSelectList(sel: seq<SelectItem>, out: seq<SelectItem>)
    requires |out| == |sel|
    requires forall i :: 0 <= i < |sel| ==> sel[i].AliasedColumn? && out[i] == RewriteItem(sel[i])
    ensures forall i :: 0 <= i < |sel| ==> out[i].AliasedColumn? && out[i].aliasName == sel[i].aliasName
    ensures forall i :: 0 <= i < |sel| && IsAggregate(sel[i]) && IsMaxMinItem(sel[i]) ==>
              out[i].column == ColumnOp(sel[i].column.opType, [UnionColumn(sel[i].aliasName)])
    ensures forall i :: 0 <= i < |sel| && IsAggregate(sel[i]) && !IsMaxMinItem(sel[i]) ==>
              out[i].column == ColumnOp("sum", [UnionColumn(sel[i].aliasName)])
    ensures forall i :: 0 <= i < |sel| && IsAggregate(sel[i]) && sel[i].column.ColumnOp? ==>
              out[i].column == ColumnOp(CombinerOp(sel[i].column.opType), [UnionColumn(sel[i].aliasName)])
    ensures forall i :: 0 <= i < |sel| && !IsAggregate(sel[i]) ==>
              out[i].column == UnionColumn(sel[i].aliasName) && !out[i].isAggregate
  {
  }

  /** `composeUnionQuery`: the select list of the aggregate query, rewritten to
      re-aggregate the columns of the union of both partial results. */
  method ComposeUnionQuery(rightQuery: SelectQuery, leftBase: Relation, rightBase: Relation)
    returns (r: Result<SelectQuery, CombinerError>)
    ensures r.Success? <==> AllAliased(rightQuery.selectList)
    ensures r.Failure? ==> r.error.NotAliased? && var p := r.error.position;
              p < |rightQuery.selectList| && !rightQuery.selectList[p].AliasedColumn?
              && AllAliased(rightQuery.selectList[..p])
    ensures r.Success? ==>
              var sel := rightQuery.selectList;
              var out := r.value.selectList;
              && |out| == |sel|
              && (forall i :: 0 <= i < |sel| ==> sel[i].AliasedColumn? && out[i] == RewriteItem(sel[i]))
              && (forall i :: 0 <= i < |sel| ==> out[i].AliasedColumn? && out[i].aliasName == sel[i].aliasName)
              && (forall i :: 0 <= i < |sel| && IsAggregate(sel[i]) && IsMaxMinItem(sel[i]) ==>
                    out[i].column == ColumnOp(sel[i].column.opType, [UnionColumn(sel[i].aliasName)]))
              && (forall i :: 0 <= i < |sel| && IsAggregate(sel[i]) && !IsMaxMinItem(sel[i]) ==>
                    out[i].column == ColumnOp("sum", [UnionColumn(sel[i].aliasName)]))
              && (forall i :: 0 <= i < |sel| && IsAggregate(sel[i]) && sel[i].column.ColumnOp? ==>
                    out[i].column == ColumnOp(CombinerOp(sel[i].column.opType), [UnionColumn(sel[i].aliasName)]))
              && (forall i :: 0 <= i < |sel| && !IsAggregate(sel[i]) ==>
                    out[i].column == UnionColumn(sel[i].aliasName) && !out[i].isAggregate)
              && r.value.groupby == AliasReferences(GroupAliases(sel))
              && r.value.fromList == [UnionOf(leftBase, rightBase)]
  {
    var sel := rightQuery.selectList;
    var allItems: seq<SelectItem> := [];
    var groupAliasNames: seq<string> := [];
    var i := 0;
    while i < |sel|
      invariant 0 <= i <= |sel|
      invariant AllAliased(sel[..i])
      invariant |allItems| == i
      invariant forall j :: 0 <= j < i ==> sel[j].AliasedColumn? && allItems[j] == RewriteItem(sel[j])
      invariant groupAliasNames == GroupAliases(sel[..i])
    {
      var item := sel[i];
      if !item.AliasedColumn? {
        r := Failure(NotAliased(i));
        return;
      }
      GroupAliasesOfPrefix(sel, i);
      allItems := allItems + [RewriteItem(item)];
      if !IsAggregate(item) {
        groupAliasNames := groupAliasNames + [item.aliasName];
      }
      i := i + 1;
    }
    assert sel[..i] == sel;
    RewrittenSelectList(sel, allItems);
    r := Success(SelectQuery(allItems, [UnionOf(leftBase, rightBase)], AliasReferences(groupAliasNames)));
  }

  // ---- What the rewrite computes ----

  function Sum(xs: seq<int>): int
    decreases |xs|
  {
    if |xs| == 0 then 0 else Sum(xs[..|xs| - 1]) + xs[|xs| - 1]
  }

  function Max(xs: seq<int>): int
    requires |xs| > 0
    decreases |xs|
  {
    if |xs| == 1 then xs[0]
    else var m := Max(xs[..|xs| - 1]); if xs[|xs| - 1] > m then xs[|xs| - 1] else m
  }

  function Min(xs: seq<int>): int
    requires |xs| > 0
    decreases |xs|
  {
    if |xs| == 1 then xs[0]
    else var m := Min(xs[..|xs| - 1]); if xs[|xs| - 1] < m then xs[|xs| - 1] else m
  }

  /** The partial aggregates the combiner meets; averages travel as sum and
      count pairs and are divided only when results are presented. */
  predicate CombinableOp(op: string) {
    op == "sum" || op == "count" || op == "max" || op == "min"
  }

  /** The value of aggregate `op` over one group's rows. */
  function Aggregate(op: string, xs: seq<int>): int
    requires CombinableOp(op)
    requires |xs| > 0
  {
    if op == "sum" then Sum(xs)
    else if op == "count" then |xs|
    else if op == "max" then Max(xs)
    else Min(xs)
  }

  lemma {:induction false} SumAppend(xs: seq<int>, ys: seq<int>)
    ensures Sum(xs + ys) == Sum(xs) + Sum(ys)
    decreases |ys|
  {
    if |ys| == 0 {
      assert xs + ys == xs;
    } else {
      var ys' := ys[..|ys| - 1];
      assert (xs + ys)[..|xs + ys| - 1] == xs + ys';
      SumAppend(xs, ys');
    }
  }

  lemma {:induction false} MaxAppend(xs: seq<int>, ys: seq<int>)
    requires |xs| > 0 && |ys| > 0
    ensures Max(xs + ys) == (if Max(xs) >= Max(ys) then Max(xs) else Max(ys))
    decreases |ys|
  {
    if |ys| > 1 {
      var ys' := ys[..|ys| - 1];
      assert (xs + ys)[..|xs + ys| - 1] == xs + ys';
      MaxAppend(xs, ys');
    } else {
      assert (xs + ys)[..|xs + ys| - 1] == xs;
    }
  }

  lemma {:induction false} MinAppend(xs: seq<int>, ys: seq<int>)
    requires |xs| > 0 && |ys| > 0
    ensures Min(xs + ys) == (if Min(xs) <= Min(ys) then Min(xs) else Min(ys))
    decreases |ys|
  {
    if |ys| > 1 {
      var ys' := ys[..|ys| - 1];
      assert (xs + ys)[..|xs + ys| - 1] == xs + ys';
      MinAppend(xs, ys');
    } else {
      assert (xs + ys)[..|xs + ys| - 1] == xs;
    }
  }

  /** Re-aggregating the two partial results of a group with the combiner's
      operator gives the aggregate over the union of both partitions' rows:
      partial counts and sums are summed, partial maxima and minima are
      maximised and minimised. */
  lemma {:induction false} ReaggregationIsExact(op: string, xs: seq<int>, ys: seq<int>)
    requires CombinableOp(op)
    requires |xs| > 0 && |ys| > 0
    ensures CombinableOp(CombinerOp(op))
    ensures Aggregate(CombinerOp(op), [Aggregate(op, xs), Aggregate(op, ys)]) == Aggregate(op, xs + ys)
  {
    var pair := [Aggregate(op, xs), Aggregate(op, ys)];
    assert pair[..1] == [pair[0]];
    assert Sum([pair[0]]) == pair[0] by {
      assert [pair[0]][..0] == [];
    }
    assert Sum(pair) == Sum(pair[..1]) + pair[1];
    if op == "sum" {
      SumAppend(xs, ys);
    } else if op == "count" {
    } else if op == "max" {
      MaxAppend(xs, ys);
      assert Max(pair) == (if pair[1] > Max(pair[..1]) then pair[1] else Max(pair[..1]));
    } else {
      MinAppend(xs, ys);
      assert Min(pair) == (if pair[1] < Min(pair[..1]) then pair[1] else Min(pair[..1]));
    }
  }

  // ---- Aggregation metadata and tokens ----

  /** A value the combiner carries without looking inside it. */
  datatype Carried = Unset | Carried(repr: string)

  /** The single-valued fields of the aggregation metadata; `createQuery`
      overwrites all of them together from one token. */
  datatype MetaFields = MetaFields(
    aggAlias: Carried, originalSelectList: Carried, aggColumn: Carried,
    aggColumnAggAliasPair: Carried, aggColumnAggAliasPairOfMaxMin: Carried, maxminAggAlias: Carried)

  datatype AggMeta = AggMeta(cubes: seq<Carried>, fields: MetaFields)

  /** A freshly constructed metadata object. */
  const EmptyAggMeta: AggMeta := AggMeta([], MetaFields(Unset, Unset, Unset, Unset, Unset, Unset))

  datatype TokenValue = MetaValue(meta: AggMeta) | QueryValue(query: SelectQuery) | OtherValue(repr: string)

  /** An execution-info token: named values handed from a node to its subscribers. */
  type Token = map<string, TokenValue>

  datatype CombinerNode = CombinerNode(selectQuery: SelectQuery, aggMeta: AggMeta)

  /** The token has no "aggMeta" entry, or that entry is aggregation metadata. */
  predicate WellTyped(t: Token) {
    AggMetaKey in t ==> t[AggMetaKey].MetaValue?
  }

  /** The metadata of the tokens that carry some, in token order. */
  function Carriers(tokens: seq<Token>): (r: seq<AggMeta>)
    ensures |r| <= |tokens|
    decreases |tokens|
  {
    if |tokens| == 0 then []
    else
      var t := tokens[|tokens| - 1];
      Carriers(tokens[..|tokens| - 1]) + (if AggMetaKey in t && t[AggMetaKey].MetaValue? then [t[AggMetaKey].meta] else [])
  }

  function AllCubes(metas: seq<AggMeta>): seq<Carried>
    decreases |metas|
  {
    if |metas| == 0 then [] else AllCubes(metas[..|metas| - 1]) + metas[|metas| - 1].cubes
  }

  /** The single-valued fields after absorbing `metas` in order: those of the
      last one, or `initial` when there is none. */
  function LastFields(initial: MetaFields, metas: seq<AggMeta>): MetaFields {
    if |metas| == 0 then initial else metas[|metas| - 1].fields
  }

  /** `createQuery`'s fold over the upstream tokens (the query itself is built by
      the superclass, which is not part of this model). Tokens without metadata
      are skipped; cubes accumulate in token order; the single-valued fields end
      as those of the last token that carries metadata. */
  method CreateQuery(node: CombinerNode, tokens: seq<Token>) returns (r: Result<CombinerNode, CombinerError>)
    ensures r.Success? <==> forall i :: 0 <= i < |tokens| ==> WellTyped(tokens[i])
    ensures r.Failure? ==> r.error == AggMetaOfWrongType
    ensures r.Success? ==> r.value.selectQuery == node.selectQuery
    ensures r.Success? ==> r.value.aggMeta.cubes == node.aggMeta.cubes + AllCubes(Carriers(tokens))
    ensures r.Success? ==> r.value.aggMeta.fields == LastFields(node.aggMeta.fields, Carriers(tokens))
  {
    var meta := node.aggMeta;
    var i := 0;
    while i < |tokens|
      invariant 0 <= i <= |tokens|
      invariant forall j :: 0 <= j < i ==> WellTyped(tokens[j])
      invariant meta.cubes == node.aggMeta.cubes + AllCubes(Carriers(tokens[..i]))
      invariant meta.fields == LastFields(node.aggMeta.fields, Carriers(tokens[..i]))
    {
      var token := tokens[i];
      assert tokens[..i + 1][..i] == tokens[..i];
      if AggMetaKey in token {
        if !token[AggMetaKey].MetaValue? {
          r := Failure(AggMetaOfWrongType);
          return;
        }
        var upstream := token[AggMetaKey].meta;
        var before := Carriers(tokens[..i]);
        assert Carriers(tokens[..i + 1]) == before + [upstream];
        assert (before + [upstream])[..|before|] == before;
        meta := AggMeta(meta.cubes + upstream.cubes, upstream.fields);
      } else {
        assert Carriers(tokens[..i + 1]) == Carriers(tokens[..i]);
      }
      i := i + 1;
    }
    assert tokens[..i] == tokens;
    r := Success(CombinerNode(node.selectQuery, meta));
  }

  /** `createToken`: the superclass's token plus this node's metadata and query. */
  function CreateToken(node: CombinerNode, base: Token): (t: Token)
    ensures t.Keys == base.Keys + {AggMetaKey, DependentQueryKey}
    ensures t[AggMetaKey] == MetaValue(node.aggMeta)
    ensures t[DependentQueryKey] == QueryValue(node.selectQuery)
    ensures forall k :: k in base && k != AggMetaKey && k != DependentQueryKey ==> t[k] == base[k]
  {
    base[AggMetaKey := MetaValue(node.aggMeta)][DependentQueryKey := QueryValue(node.selectQuery)]
  }

  /** Tokens made by `CreateToken` are well typed and hand over exactly the
      producing nodes' metadata, in order: what a combiner absorbs downstream is
      what its upstream combiners accumulated. */
  lemma {:induction false} CreatedTokensCarryTheirMeta(nodes: seq<CombinerNode>, bases: seq<Token>)
    requires |nodes| == |bases|
    ensures var tokens := seq(|nodes|, i requires 0 <= i < |nodes| => CreateToken(nodes[i], bases[i]));
            && (forall i :: 0 <= i < |tokens| ==> WellTyped(tokens[i]))
            && Carriers(tokens) == seq(|nodes|, i requires 0 <= i < |nodes| => nodes[i].aggMeta)
    decreases |nodes|
  {
    var tokens := seq(|nodes|, i requires 0 <= i < |nodes| => CreateToken(nodes[i], bases[i]));
    if |nodes| > 0 {
      var n := |nodes| - 1;
      CreatedTokensCarryTheirMeta(nodes[..n], bases[..n]);
      var prefix := seq(n, i requires 0 <= i < n => CreateToken(nodes[..n][i], bases[..n][i]));
      assert tokens[..n] == prefix;
      assert Carriers(tokens) == Carriers(prefix) + [nodes[n].aggMeta];
    }
  }

  // ---- Building the node ----

  /** The alias generator: a fixed prefix and a running serial number. */
  datatype Namer = Namer(prefix: string, serial: nat)

  function GenerateAlias(namer: Namer): (string, Namer) {
    (namer.prefix + NatToString(namer.serial), Namer(namer.prefix, namer.serial + 1))
  }

  /** Successive aliases from one generator are distinct. */
  lemma {:induction false} GeneratedAliasesDistinct(namer: Namer)
    ensures GenerateAlias(namer).0 != GenerateAlias(GenerateAlias(namer).1).0
  {
    var a := GenerateAlias(namer).0;
    var b := GenerateAlias(GenerateAlias(namer).1).0;
    if a == b {
      assert a[|namer.prefix|..] == NatToString(namer.serial);
      assert b[|namer.prefix|..] == NatToString(namer.serial + 1);
      NatToStringInjective(namer.serial, namer.serial + 1);
    }
  }

  type NodeId = nat

  /** A subscription ticket: the upstream node fills the placeholder with this alias. */
  datatype Subscription = Subscription(upstream: NodeId, placeholderAlias: string)

  datatype Wiring = Wiring(node: CombinerNode, namer: Namer, leftAlias: string, rightAlias: string, subscriptions: seq<Subscription>)

  /** `create`: two placeholders with fresh aliases, the union query built over
      them from the right (aggregate) query, and one subscription per side. */
  method Create(namer: Namer, leftNode: NodeId, rightNode: NodeId, rightQuery: SelectQuery)
    returns (r: Result<Wiring, CombinerError>)
    ensures r.Success? <==> AllAliased(rightQuery.selectList)
    ensures r.Success? ==>
              var w := r.value;
              && w.leftAlias == GenerateAlias(namer).0
              && w.rightAlias == GenerateAlias(GenerateAlias(namer).1).0
              && w.leftAlias != w.rightAlias
              && w.subscriptions == [Subscription(leftNode, w.leftAlias), Subscription(rightNode, w.rightAlias)]
              && w.node.aggMeta == EmptyAggMeta
              && w.node.selectQuery.fromList == [UnionOf(PlaceholderTable(w.leftAlias), PlaceholderTable(w.rightAlias))]
              && |w.node.selectQuery.selectList| == |rightQuery.selectList|
              && (forall i :: 0 <= i < |rightQuery.selectList| ==>
                    rightQuery.selectList[i].AliasedColumn? && w.node.selectQuery.selectList[i] == RewriteItem(rightQuery.selectList[i]))
              && w.node.selectQuery.groupby == AliasReferences(GroupAliases(rightQuery.selectList))
              && w.namer == Namer(namer.prefix, namer.serial + 2)
  {
    var (leftAlias, namer1) := GenerateAlias(namer);
    var (rightAlias, namer2) := GenerateAlias(namer1);
    GeneratedAliasesDistinct(namer);
    var query := ComposeUnionQuery(rightQuery, PlaceholderTable(leftAlias), PlaceholderTable(rightAlias));
    if query.Failure? {
      return Failure(query.error);
    }
    var subscriptions := [Subscription(leftNode, leftAlias), Subscription(rightNode, rightAlias)];
    r := Success(Wiring(CombinerNode(query.value, EmptyAggMeta), namer2, leftAlias, rightAlias, subscriptions));
  }
}
