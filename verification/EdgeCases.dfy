/** Where rewriting or aggregating does something a reader of the statement would not expect. */
module EdgeCases {
  import opened Sequences
  import opened Types
  import opened Expressions
  import opened RowOperators
  import opened Aggregates
  import opened AggregationTable
  import opened Plans
  import opened Optimizer

  // ----- Column names -----

  /** The filters that FalseFilter takes from the top of a plan. */
  function BelowFalseFilters(p: Plan): Plan
    decreases p
  {
    if p.Unary? && p.op.Filter? && IsPredicateFalse(p.op.pred) == Some(true) then BelowFalseFilters(p.child) else p
  }

  /** Every rule but FalseFilter keeps the root's schema, column names included. */
  lemma RootSchemaKept(rule: Rule, p: Plan)
    requires rule != FalseFilter && Optimize(rule, p).Some?
    ensures Optimize(rule, p).value.schema == p.schema
  {
  }

  /** FalseFilter hands out the schema found below the filters it removes, so names given above them are lost. */
  lemma {:induction false} FalseFilterSchema(p: Plan)
    requires Optimize(FalseFilter, p).Some?
    ensures Optimize(FalseFilter, p).value.schema == BelowFalseFilters(p).schema
    decreases p
  {
    match p
    case Leaf(_, _) =>
    case Unary(_, _, child) => FalseFilterSchema(child);
    case Join(_, _, left, right) => FalseFilterSchema(left); FalseFilterSchema(right);
  }

  // ----- Aggregates of no rows -----

  /**
   * Without any row, an aggregation with one output column yields one row of initial values if that
   * column is an aggregate, a malformed row if it is a group key, and with more columns no row at all.
   */
  lemma AggregationOfNothing(groupBys: seq<Expression>, aggregates: seq<Expression>, aggTypes: seq<AggregationType>,
                             schema: Schema, out: Outcome)
    requires |schema| == |groupBys| + |aggTypes|
    ensures AggregationAllows(Aggregation(groupBys, aggregates, aggTypes), schema, [], out) <==>
              out == if |schema| != 1 then Rows([])
                     else if |groupBys| == 0 then Rows([InitialValues(aggTypes)])
                     else Undefined
  {
    assert EntriesOf(groupBys, aggregates, []) == [];
    assert TableOf(aggTypes, []) == Some(map[]) && !SomeNullKey([]) && EntriesFit(aggTypes, []);
    if out.Rows? {
      NoGroups(out.rows);
    }
  }

  lemma NoGroups(rows: seq<Row>)
    ensures ListsGroups(map[], rows) <==> rows == []
  {
    var t: Table := map[];
    assert Enumerates([], t.Keys) && GroupRows(t, []) == [];
    forall order | Enumerates(order, t.Keys)
      ensures order == []
    {
      NothingToEnumerate(order);
    }
  }

  lemma NothingToEnumerate(order: seq<Row>)
    requires Enumerates(order, {})
    ensures order == []
  {
    HasMember(order);
  }
}
