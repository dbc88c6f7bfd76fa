/**
 * Executing planned queries: they yield exactly the results the statement asks for on the rows of their
 * child, and fail exactly where the child does or where some row or group stands in the way.
 */
module GroupedQueries {
  import opened Types
  import opened Expressions
  import opened RowOperators
  import opened Aggregates
  import opened AggregationTable
  import opened Plans
  import opened PlanTyping
  import opened AggregationPlans
  import opened AggregationMeaning

  // ----- Executing the planned query -----

  /** On typed rows everything evaluates: only an exception of a sum keeps a query from being aggregated. */
  lemma TypedQueryAggregates(q: Query)
    requires q.Planned() && RowsHaveTypes(q.rows, q.child.Types())
    requires UnaryTyped(AggregationOf(q.One(), q.child).op, q.child.Types(), TypesOf(q.Schema()))
    ensures EntriesFit(AggTypes(q.One().calls), q.Entries())
    ensures q.Aggregated() <==> TableOf(AggTypes(q.One().calls), q.Entries()).Some?
  {
    var one, types := q.One(), q.child.Types();
    EntriesTyped(AggregationOf(one, q.child).op, q.rows, types, TypesOf(q.Schema()));
    TypedRowsEvaluate(one.groupBys, q.rows, types, TypesOf(q.Schema())[..|one.groupBys|]);
    forall r | r in q.rows
      ensures |ProjectRow(Inputs(one.calls), r)| == |one.calls|
    {
      AggregateInputsTyped(Inputs(one.calls), AggTypes(one.calls), r, types);
    }
  }

  lemma TypedRowsEvaluate(exprs: seq<Expression>, rows: seq<Row>, input: seq<TypeId>, output: seq<TypeId>)
    requires ExpressionsTyped(exprs, input, output) && RowsHaveTypes(rows, input)
    ensures AllEvaluate(exprs, rows)
  {
    forall r | r in rows
      ensures |ProjectRow(exprs, r)| == |exprs|
    {
      ProjectRowTyped(exprs, r, input, output);
    }
  }

  lemma InputOfUnary(db: Database, p: Plan, out: seq<Row>) returns (rows: seq<Row>)
    requires p.Unary? && Allowed(db, p, Rows(out))
    ensures Allowed(db, p.child, Rows(rows)) && UnaryAllows(p.op, p.schema, rows, Rows(out))
  {
    var c :| Allowed(db, p.child, c)
             && if c.Rows? then UnaryAllows(p.op, p.schema, c.rows, Rows(out)) else Rows(out) == c;
    rows := c.rows;
  }

  /** The rows that the filter and the projection of a planned query make of the group rows. */
  lemma InputOfOutput(db: Database, q: Query, out: seq<Row>) returns (groupRows: seq<Row>)
    requires q.Planned() && Allowed(db, PlanSelectAgg(q.statement, q.child).value, Rows(out))
    ensures Allowed(db, AggregationOf(q.One(), q.child), Rows(groupRows)) && out == q.Output(groupRows)
  {
    var p := PlanSelectAgg(q.statement, q.child).value;
    var filtered := InputOfUnary(db, p, out);
    if q.statement.having.Some? {
      groupRows := InputOfUnary(db, p.child, filtered);
    } else {
      groupRows := filtered;
    }
    assert q.SelectExpressions() == p.op.expressions;
  }

  lemma EmptyTable(q: Query)
    requires q.Aggregated()
    ensures q.Stored() == map[] <==> q.rows == []
  {
    TableHasAllKeys(AggTypes(q.One().calls), q.Entries());
    if q.rows != [] {
      assert q.Entries()[0] in q.Entries();
      assert q.Entries()[0].key in q.Stored();
    }
  }

  /** Group rows in any order the groups may be visited in. */
  lemma GroupRowsOfAggregation(q: Query, groupRows: seq<Row>) returns (order: seq<Row>)
    requires q.Aggregated()
    requires AggregationAllows(AggregationOf(q.One(), q.child).op, q.Schema(), q.rows, Rows(groupRows))
    ensures Enumerates(order, q.Groups().Keys) && groupRows == GroupRows(q.Groups(), order)
  {
    if q.Stored() == map[] && |q.Schema()| == 1 {
      var values := InitialValues(AggTypes(q.One().calls));
      assert q.Groups() == map[[] := values] && groupRows == [values];
      order := [[]];
      assert [] + values == values;
    } else {
      assert q.Groups() == q.Stored();
      order :| Enumerates(order, q.Stored().Keys) && groupRows == GroupRows(q.Stored(), order);
    }
  }

  /** The parts of a well-formed planned query are well-formed. */
  lemma PlannedPartsTyped(db: Database, q: Query)
    requires q.Planned() && WellFormed(db, PlanSelectAgg(q.statement, q.child).value)
    ensures WellFormed(db, q.child)
    ensures UnaryTyped(AggregationOf(q.One(), q.child).op, q.child.Types(), TypesOf(q.Schema()))
  {
    assert WellFormed(db, PlanSelectAgg(q.statement, q.child).value.child);
    assert WellFormed(db, AggregationOf(q.One(), q.child));
  }

  /** Group keys with a NULL leave the engine without a defined result. */
  predicate SomeKeyHasNull(s: SelectStatement, schema: Schema, rows: seq<Row>) {
    exists r :: r in rows && HasNull(KeyOf(s.groupBy, schema, r))
  }

  lemma NullKeysAreKeys(q: Query)
    requires q.Planned()
    ensures SomeNullKey(q.Entries()) <==> SomeKeyHasNull(q.statement, q.child.schema, q.rows)
  {
    forall i | 0 <= i < |q.rows|
      ensures q.Entries()[i].key == KeyOf(q.statement.groupBy, q.child.schema, q.rows[i])
    {
      PlannedKeyMeans(q.statement.groupBy, q.child.schema, q.rows[i]);
    }
    if r :| r in q.rows && HasNull(KeyOf(q.statement.groupBy, q.child.schema, r)) {
      var i :| 0 <= i < |q.rows| && q.rows[i] == r;
      assert q.Entries()[i] in q.Entries();
    }
  }

  /** So does a single group key, and no call, over no rows at all. */
  predicate OneKeyOfNothing(q: Query)
    requires q.Planned()
  {
    q.rows == [] && |q.statement.groupBy| == 1 && q.One().calls == []
  }

  /** The rows a statement asks for, on some rows its child may yield and for some order of the groups. */
  ghost predicate IsResult(db: Database, q: Query, order: seq<Row>, out: seq<Row>) {
    && q.Aggregated() && Allowed(db, q.child, Rows(q.rows))
    && !SomeKeyHasNull(q.statement, q.child.schema, q.rows) && !OneKeyOfNothing(q)
    && Enumerates(order, q.Groups().Keys) && out == q.Result(order)
  }

  /** Whatever rows a planned query yields, they are the result the statement asks for. */
  lemma QueryYieldsResult(db: Database, s: SelectStatement, child: Plan, out: seq<Row>)
    returns (q: Query, order: seq<Row>)
    requires PlanSelectAgg(s, child).Some? && WellFormed(db, PlanSelectAgg(s, child).value) && TablesTyped(db)
    requires Allowed(db, PlanSelectAgg(s, child).value, Rows(out))
    ensures q.statement == s && q.child == child && IsResult(db, q, order, out)
  {
    q := Query(s, child, []);
    var groupRows := InputOfOutput(db, q, out);
    PlannedPartsTyped(db, q);
    var rows := InputOfUnary(db, AggregationOf(q.One(), child), groupRows);
    q := Query(s, child, rows);
    OutcomesAreTyped(db, child, Rows(rows));
    TypedQueryAggregates(q);
    NullKeysAreKeys(q);
    EmptyTable(q);
    order := GroupRowsOfAggregation(q, groupRows);
    q.PlanComputesResult(order);
  }

  /** The outcomes of a filter or projection are its rows, and the exceptions of what is below it. */
  lemma OutcomesPassOn(db: Database, p: Plan, o: Outcome)
    requires p.Unary? && (p.op.Filter? || p.op.Projection?) && Allowed(db, p.child, o)
    ensures Allowed(db, p, if !o.Rows? then o else if p.op.Filter? then Rows(FilterRows(p.op.pred, o.rows))
                           else Rows(ProjectRows(p.op.expressions, o.rows)))
  {
  }

  /** The order of the groups is one in which the aggregation may list them. */
  lemma GroupsAreListed(q: Query, order: seq<Row>)
    requires q.Aggregated() && Enumerates(order, q.Groups().Keys)
    requires !SomeNullKey(q.Entries()) && !OneKeyOfNothing(q)
    ensures AggregationAllows(AggregationOf(q.One(), q.child).op, q.Schema(), q.rows,
                              Rows(GroupRows(q.Groups(), order)))
  {
    EmptyTable(q);
    if q.Stored() == map[] && |q.Schema()| == 1 {
      var values := InitialValues(AggTypes(q.One().calls));
      assert q.Groups() == map[[] := values];
      OnlyOrder(order, []);
      assert [] + values == values;
    } else {
      assert q.Groups() == q.Stored();
      assert ListsGroups(q.Stored(), GroupRows(q.Groups(), order));
    }
  }

  lemma OnlyOrder(order: seq<Row>, key: Row)
    requires Enumerates(order, {key})
    ensures order == [key]
  {
    assert key in order;
    var last := |order| - 1;
    assert order[0] in order && order[last] in order;
  }

  /** The planned filter and projection on group rows the aggregation may yield. */
  lemma OutputIsAllowed(db: Database, q: Query, groupRows: seq<Row>)
    requires q.Planned() && Allowed(db, AggregationOf(q.One(), q.child), Rows(groupRows))
    ensures Allowed(db, PlanSelectAgg(q.statement, q.child).value, Rows(q.Output(groupRows)))
  {
    var p := PlanSelectAgg(q.statement, q.child).value;
    assert p.op == Projection(q.SelectExpressions());
    if q.statement.having.Some? {
      OutcomesPassOn(db, p.child, Rows(groupRows));
      OutcomesPassOn(db, p, Rows(FilterRows(p.child.op.pred, groupRows)));
    } else {
      OutcomesPassOn(db, p, Rows(groupRows));
    }
  }

  /** Every such result may be yielded. */
  lemma ResultIsYielded(db: Database, q: Query, order: seq<Row>, out: seq<Row>)
    requires IsResult(db, q, order, out)
    ensures Allowed(db, PlanSelectAgg(q.statement, q.child).value, Rows(out))
  {
    NullKeysAreKeys(q);
    GroupsAreListed(q, order);
    UnaryAllowed(db, AggregationOf(q.One(), q.child), q.rows, Rows(GroupRows(q.Groups(), order)));
    OutputIsAllowed(db, q, GroupRows(q.Groups(), order));
    q.PlanComputesResult(order);
  }

  // ----- Exceptions -----

  /** A call has no value for the group of one of the rows: its sum does not fit. */
  predicate SomeCallFails(s: SelectStatement, schema: Schema, rows: seq<Row>) {
    exists call, r :: call in CallsOfAll(StatementExpressions(s)) && r in rows
                      && CallValue(call, s.groupBy, schema, rows, KeyOf(s.groupBy, schema, r)).None?
  }

  /** What the i-th call means for a group is the fold the table computes for it. */
  lemma CallValueIsFold(q: Query, key: Row, i: nat)
    requires q.Planned() && AllEvaluate(Inputs(q.One().calls), q.rows) && i < |q.One().calls|
    ensures i < |CallsOfAll(StatementExpressions(q.statement))|
    ensures forall e :: e in q.Entries() ==> i < |e.inputs|
    ensures q.ValueOf(key)(CallsOfAll(StatementExpressions(q.statement))[i])
         == Fold(AggTypes(q.One().calls)[i], GroupInputs(q.Entries(), key, i))
  {
    q.CallIsPlanned(i);
    var call := CallsOfAll(StatementExpressions(q.statement))[i];
    GroupInputsAreColumn(q.One().groupBys, Inputs(q.One().calls), q.rows, key, i);
    GroupColumnMeans(q.statement.groupBy, call, q.child.schema, q.rows, key);
    PlannedCallMeans(call, q.child.schema, []);
  }

  /** Filling the table throws exactly if some call has no value for the group of some row. */
  lemma AggregatingThrowsIff(q: Query)
    requires q.Planned() && AllEvaluate(Inputs(q.One().calls), q.rows)
             && EntriesFit(AggTypes(q.One().calls), q.Entries())
    ensures TableOf(AggTypes(q.One().calls), q.Entries()).None? <==> SomeCallFails(q.statement, q.child.schema, q.rows)
  {
    var types, calls := AggTypes(q.One().calls), CallsOfAll(StatementExpressions(q.statement));
    if TableOf(types, q.Entries()).None? {
      var key, i := FailureHasWitness(types, q.Entries());
      CallValueIsFold(q, key, i);
      q.KeysOfRows(key);
      assert calls[i] in calls;
    } else {
      forall call, r | call in calls && r in q.rows
        ensures q.ValueOf(KeyOf(q.statement.groupBy, q.child.schema, r))(call).Some?
      {
        var i :| 0 <= i < |calls| && calls[i] == call;
        var key := KeyOf(q.statement.groupBy, q.child.schema, r);
        CallValueIsFold(q, key, i);
        TableHoldsGroupFold(types, q.Entries(), key, i);
      }
    }
  }

  /** Filters and projections only pass failures on. */
  lemma FailurePassesOn(db: Database, p: Plan, o: Outcome)
    requires p.Unary? && (p.op.Filter? || p.op.Projection?) && !o.Rows?
    ensures Allowed(db, p, o) <==> Allowed(db, p.child, o)
  {
    if Allowed(db, p, o) {
      var c :| Allowed(db, p.child, c) && if c.Rows? then UnaryAllows(p.op, p.schema, c.rows, o) else o == c;
      assert c == o;
    }
    if Allowed(db, p.child, o) {
      ChildFails(db, p, o);
    }
  }

  lemma UnaryFailsIff(db: Database, p: Plan, o: Outcome)
    requires p.Unary? && !o.Rows?
    ensures Allowed(db, p, o) <==>
            || Allowed(db, p.child, o)
            || exists rows :: Allowed(db, p.child, Rows(rows)) && UnaryAllows(p.op, p.schema, rows, o)
  {
    if Allowed(db, p, o) {
      var c :| Allowed(db, p.child, c) && if c.Rows? then UnaryAllows(p.op, p.schema, c.rows, o) else o == c;
      if c.Rows? {
        assert Allowed(db, p.child, Rows(c.rows));
      }
    }
    if Allowed(db, p.child, o) {
      ChildFails(db, p, o);
    }
    if rows :| Allowed(db, p.child, Rows(rows)) && UnaryAllows(p.op, p.schema, rows, o) {
      UnaryAllowed(db, p, rows, o);
    }
  }

  /** How a planned query fails on the rows of its child, if it does. */
  predicate FailsOn(q: Query, o: Outcome)
    requires q.Planned()
  {
    if SomeKeyHasNull(q.statement, q.child.schema, q.rows) || OneKeyOfNothing(q) then o == Undefined
    else o == Throws && SomeCallFails(q.statement, q.child.schema, q.rows)
  }

  lemma AggregationFailsOn(q: Query, o: Outcome)
    requires q.Planned() && RowsHaveTypes(q.rows, q.child.Types()) && !o.Rows?
    requires UnaryTyped(AggregationOf(q.One(), q.child).op, q.child.Types(), TypesOf(q.Schema()))
    ensures UnaryAllows(AggregationOf(q.One(), q.child).op, q.Schema(), q.rows, o) <==> FailsOn(q, o)
  {
    TypedQueryAggregates(q);
    NullKeysAreKeys(q);
    var inputs := Inputs(q.One().calls);
    forall r | r in q.rows
      ensures |ProjectRow(inputs, r)| == |inputs|
    {
      AggregateInputsTyped(inputs, AggTypes(q.One().calls), r, q.child.Types());
    }
    AggregatingThrowsIff(q);
    if q.Aggregated() {
      EmptyTable(q);
    }
  }

  /** A planned query fails exactly as its child may, or as it does on rows the child may yield. */
  lemma QueryFailsIff(db: Database, s: SelectStatement, child: Plan, o: Outcome)
    requires PlanSelectAgg(s, child).Some? && WellFormed(db, PlanSelectAgg(s, child).value) && TablesTyped(db)
    requires !o.Rows?
    ensures Allowed(db, PlanSelectAgg(s, child).value, o) <==>
            Allowed(db, child, o) || exists rows :: Allowed(db, child, Rows(rows)) && FailsOn(Query(s, child, rows), o)
  {
    var p, agg := PlanSelectAgg(s, child).value, AggregationOf(Query(s, child, []).One(), child);
    FailurePassesOn(db, p, o);
    if s.having.Some? {
      FailurePassesOn(db, p.child, o);
    }
    assert Allowed(db, p, o) <==> Allowed(db, agg, o);
    PlannedPartsTyped(db, Query(s, child, []));
    forall rows | Allowed(db, child, Rows(rows))
      ensures UnaryAllows(agg.op, agg.schema, rows, o) <==> FailsOn(Query(s, child, rows), o)
    {
      OutcomesAreTyped(db, child, Rows(rows));
      AggregationFailsOn(Query(s, child, rows), o);
    }
    UnaryFailsIff(db, agg, o);
  }
}
