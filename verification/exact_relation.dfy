/** The exact relation tree and the helpers every relation shares: walking
    down chains of grouping or filtering nodes, rendering a relation as a FROM
    source, and consolidating per-expression sample candidates into one plan.
    Expressions and conditions are opaque: they are kept as the text they were
    parsed from. */
module ExactRelation {
  import opened Results

  datatype Expr = Expr(text: string)

  datatype Cond = Cond(text: string) | AndCond(left: Cond, right: Cond)

  datatype SelectElem = SelectElem(expr: Expr, alias: Option<string>)

  datatype OrderByExpr = OrderByExpr(expr: Expr, direction: string)

  datatype TableUniqueName = TableUniqueName(schemaName: string, tableName: string)

  /** The closed set of relation kinds; every kind may carry an alias, used
      when the relation is nested as a derived table. */
  datatype Rel =
    | Single(table: TableUniqueName, alias: Option<string>)
    | Joined(left: Rel, right: Rel, joinCond: Option<Cond>, alias: Option<string>)
    | Filtered(source: Rel, filter: Cond, alias: Option<string>)
    | Grouped(source: Rel, groupby: seq<Expr>, alias: Option<string>)
    | Aggregated(source: Rel, elems: seq<SelectElem>, alias: Option<string>)
    | Projected(source: Rel, elems: seq<SelectElem>, alias: Option<string>)
    | Ordered(source: Rel, orderby: seq<OrderByExpr>, alias: Option<string>)
    | Limited(source: Rel, limit: int, alias: Option<string>)

  // ---- Chains of grouping nodes ----

  /** Reference definition: the group-by lists along the maximal chain of
      grouping nodes from `r` down, outermost first, and the first relation
      below the chain. */
  function GroupbyChain(r: Rel): (c: (seq<Expr>, Rel))
    ensures !c.1.Grouped?
    ensures !r.Grouped? ==> c == ([], r)
    decreases r
  {
    if r.Grouped? then
      var rest := GroupbyChain(r.source);
      (r.groupby + rest.0, rest.1)
    else ([], r)
  }

  /** `allPrecedingGroupbys`, as the loop the source runs. */
  method AllPrecedingGroupbys(r: Rel) returns (groupbys: seq<Expr>, t: Rel)
    ensures (groupbys, t) == GroupbyChain(r)
    ensures !t.Grouped?
    ensures !r.Grouped? ==> groupbys == [] && t == r
    ensures r.Grouped? ==> groupbys[..|r.groupby|] == r.groupby
  {
    groupbys := [];
    t := r;
    assert [] + GroupbyChain(r).0 == GroupbyChain(r).0;
    while t.Grouped?
      invariant GroupbyChain(r) == (groupbys + GroupbyChain(t).0, GroupbyChain(t).1)
      decreases t
    {
      assert groupbys + t.groupby + GroupbyChain(t.source).0 == groupbys + (t.groupby + GroupbyChain(t.source).0);
      groupbys := groupbys + t.groupby;
      t := t.source;
    }
    assert groupbys + [] == groupbys;
    if r.Grouped? {
      assert groupbys == r.groupby + GroupbyChain(r.source).0;
    }
  }

  // ---- Chains of filtering nodes ----

  /** Reference definition: the filters along the maximal chain of filtering
      nodes from `r` down, outermost first, and the first relation below. */
  function FilterChain(r: Rel): (c: (seq<Cond>, Rel))
    ensures !c.1.Filtered?
    ensures |c.0| == 0 <==> !r.Filtered?
    decreases r
  {
    if r.Filtered? then
      var rest := FilterChain(r.source);
      ([r.filter] + rest.0, rest.1)
    else ([], r)
  }

  /** The left-nested conjunction of `cs`, absent for no conditions. */
  function Conjoin(cs: seq<Cond>): (c: Option<Cond>)
    ensures c.None? <==> |cs| == 0
    decreases |cs|
  {
    if |cs| == 0 then None
    else if |cs| == 1 then Some(cs[0])
    else Some(AndCond(Conjoin(cs[..|cs| - 1]).value, cs[|cs| - 1]))
  }

  /** `allPrecedingFilters`, as the loop the source runs. */
  method AllPrecedingFilters(r: Rel) returns (c: Option<Cond>, t: Rel)
    ensures c.None? <==> !r.Filtered?
    ensures !t.Filtered?
    ensures t == FilterChain(r).1
    ensures c == Conjoin(FilterChain(r).0)
    ensures r.Filtered? && !r.source.Filtered? ==> c == Some(r.filter) && t == r.source
  {
    c := None;
    t := r;
    ghost var seen: seq<Cond> := [];
    assert [] + FilterChain(r).0 == FilterChain(r).0;
    while t.Filtered?
      invariant c == Conjoin(seen)
      invariant FilterChain(r) == (seen + FilterChain(t).0, FilterChain(t).1)
      decreases t
    {
      if c.Some? {
        c := Some(AndCond(c.value, t.filter));
      } else {
        c := Some(t.filter);
      }
      assert (seen + [t.filter])[..|seen|] == seen;
      assert seen + [t.filter] + FilterChain(t.source).0 == seen + ([t.filter] + FilterChain(t.source).0);
      seen := seen + [t.filter];
      t := t.source;
    }
    assert seen == FilterChain(r).0;
  }

  // ---- Rendering a relation as a FROM source ----

  /** `sourceExpr`: a single table by its table name, a join by its join
      clause, anything else as an aliased derived table; `toSql` and
      `joinClause` are the relations' own renderers and `freshAlias` the
      alias generator's next name. */
  function SourceExpr(source: Rel, toSql: Rel -> string, joinClause: Rel -> string, freshAlias: string): (s: string)
    ensures source.Single? ==> s == source.table.tableName
    ensures source.Joined? ==> s == joinClause(source)
    ensures !source.Single? && !source.Joined? ==>
              var alias := if source.alias.Some? then source.alias.value else freshAlias;
              && |s| == |toSql(source)| + |alias| + 6
              && s[..|toSql(source)| + 1] == "(" + toSql(source)
              && s[|s| - |alias| - 5..|s| - |alias|] == ") AS "
              && s[|s| - |alias|..] == alias
  {
    if source.Single? then source.table.tableName
    else if source.Joined? then joinClause(source)
    else
      var alias := if source.alias.Some? then source.alias.value else freshAlias;
      "(" + toSql(source) + ") AS " + alias
  }

  // ---- Sample candidates ----

  /** `findSample` as every relation kind that does not override it answers:
      no candidate samples. */
  function DefaultFindSample<Group>(elem: SelectElem): (r: seq<Group>)
    ensures |r| == 0
  {
    []
  }

  /** Reference definition: the candidate lists folded into the working set
      in list order. */
  function FoldCandidates<Plans, Group>(plans: Plans, candidates: seq<seq<Group>>, consolidateNewExpr: (Plans, seq<Group>) -> Plans): Plans
    decreases |candidates|
  {
    if |candidates| == 0 then plans
    else consolidateNewExpr(FoldCandidates(plans, candidates[..|candidates| - 1], consolidateNewExpr), candidates[|candidates| - 1])
  }

  /** Folding a concatenation is folding its parts one after the other. */
  lemma {:induction false} FoldCandidatesAppend<Plans, Group>(
    plans: Plans, front: seq<seq<Group>>, back: seq<seq<Group>>, consolidateNewExpr: (Plans, seq<Group>) -> Plans)
    ensures FoldCandidates(plans, front + back, consolidateNewExpr)
            == FoldCandidates(FoldCandidates(plans, front, consolidateNewExpr), back, consolidateNewExpr)
    decreases |back|
  {
    if |back| == 0 {
      assert front + back == front;
    } else {
      var back' := back[..|back| - 1];
      assert (front + back)[..|front + back| - 1] == front + back';
      FoldCandidatesAppend(plans, front, back', consolidateNewExpr);
    }
  }

  /** `consolidate`: fold every expression's candidates into an initially
      empty working set, in order, then pick the best plan for the configured
      relative cost ratio. The working set, the fold step and the choice are
      the sample-planning collaborators'. */
  method Consolidate<Plans, Group, Plan>(
    candidatesList: seq<seq<Group>>, emptyPlans: Plans,
    consolidateNewExpr: (Plans, seq<Group>) -> Plans,
    bestPlan: (Plans, real) -> Plan, relativeCostRatio: real) returns (plan: Plan)
    ensures plan == bestPlan(FoldCandidates(emptyPlans, candidatesList, consolidateNewExpr), relativeCostRatio)
    ensures |candidatesList| == 0 ==> plan == bestPlan(emptyPlans, relativeCostRatio)
    ensures |candidatesList| == 1 ==> plan == bestPlan(consolidateNewExpr(emptyPlans, candidatesList[0]), relativeCostRatio)
  {
    var plans := emptyPlans;
    var i := 0;
    while i < |candidatesList|
      invariant 0 <= i <= |candidatesList|
      invariant plans == FoldCandidates(emptyPlans, candidatesList[..i], consolidateNewExpr)
    {
      assert candidatesList[..i + 1][..i] == candidatesList[..i];
      plans := consolidateNewExpr(plans, candidatesList[i]);
      i := i + 1;
    }
    assert candidatesList[..i] == candidatesList;
    if |candidatesList| == 1 {
      assert candidatesList[..0] == [];
    }
    plan := bestPlan(plans, relativeCostRatio);
  }
}
