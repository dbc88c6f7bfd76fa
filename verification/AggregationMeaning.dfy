/**
 * Two-phase planning preserves meaning: every planned expression yields, on the row of a group, what
 * the original means for that group.
 */
module AggregationMeaning {
  import opened Types
  import opened Expressions
  import opened RowOperators
  import opened Aggregates
  import opened AggregationTable
  import opened Plans
  import opened AggregationPlans

  // ----- Lists of expressions -----

  /** Planning a list consumes one entry per call: in the end every collected call has been consumed once. */
  lemma {:induction false} PlanningConsumesAllCalls(es: seq<Bound>, schema: Schema, exprs: seq<Expression>, next: nat)
    requires PlanAll(es, schema, exprs, next).Some?
    ensures PlanAll(es, schema, exprs, next).value.next == next + |CallsOfAll(es)|
  {
    if es != [] {
      PlanningConsumesAllCalls(es[..|es| - 1], schema, exprs, next);
      PlanningConsumesCalls(es[|es| - 1], schema, exprs, PlanAll(es[..|es| - 1], schema, exprs, next).value.next);
    }
  }

  lemma {:induction false} PlannedListMeansOriginals(es: seq<Bound>, schema: Schema, exprs: seq<Expression>, next: nat,
                                                     row: Row, valueOf: Bound -> Option<Value>, i: nat)
    requires PlanAll(es, schema, exprs, next).Some? && Yields(exprs, next, CallsOfAll(es), row, valueOf) && i < |es|
    ensures PlanAll(es, schema, exprs, next).value.exprs[i].Evaluate(row) == Meaning(es[i], schema, row, valueOf)
  {
    var front, last := es[..|es| - 1], es[|es| - 1];
    YieldsParts(exprs, next, CallsOfAll(front), Calls(last), row, valueOf);
    PlanningConsumesAllCalls(front, schema, exprs, next);
    if i < |es| - 1 {
      PlannedListMeansOriginals(front, schema, exprs, next, row, valueOf, i);
    } else {
      PlannedMeansOriginal(last, schema, exprs, next + |CallsOfAll(front)|, row, valueOf);
    }
  }

  lemma {:induction false} PlanCallsAt(calls: seq<Bound>, schema: Schema, i: nat)
    requires (forall c :: c in calls ==> c.AggCall?) && PlanCalls(calls, schema).Some? && i < |calls|
    ensures PlanCall(calls[i], schema) == Some(PlanCalls(calls, schema).value[i])
  {
    if i < |calls| - 1 {
      PlanCallsAt(calls[..|calls| - 1], schema, i);
    }
  }

  // ----- The value of a call for a group -----

  /** Outside of an aggregation no call has a value. */
  function NoCalls(): Bound -> Option<Value> {
    call => None
  }

  /** What an expression means on a row of the child. */
  function RowMeaning(e: Bound, schema: Schema, row: Row): Option<Value> {
    Meaning(e, schema, row, NoCalls())
  }

  /** The meanings of some expressions; one without a value contributes none. */
  function MeaningRow(es: seq<Bound>, schema: Schema, row: Row, valueOf: Bound -> Option<Value>): Row {
    if es == [] then []
    else
      var v := Meaning(es[0], schema, row, valueOf);
      (if v.Some? then [v.value] else []) + MeaningRow(es[1..], schema, row, valueOf)
  }

  /** The group to which a row of the child belongs. */
  function KeyOf(groupBy: seq<Bound>, schema: Schema, row: Row): Row {
    MeaningRow(groupBy, schema, row, NoCalls())
  }

  /** The aggregate a function name stands for with so many arguments. */
  function AggregateNamed(name: string, count: nat): Option<AggregationType> {
    if count == 0 then (if name == "count_star" then Some(CountStarAggregate) else None)
    else if count > 1 then None
    else if name == "min" then Some(MinAggregate)
    else if name == "max" then Some(MaxAggregate)
    else if name == "sum" then Some(SumAggregate)
    else if name == "count" then Some(CountAggregate)
    else None
  }

  /** What a call aggregates: its argument, or the number 1 if it has none. */
  function ArgumentOf(call: Bound): Bound
    requires call.AggCall?
  {
    if call.args == [] then Literal(ONE) else call.args[0]
  }

  /** The values of an expression on the rows of a group, in the order of the rows. */
  function GroupValues(groupBy: seq<Bound>, e: Bound, schema: Schema, rows: seq<Row>, key: Row): seq<Value> {
    if rows == [] then []
    else
      var last := rows[|rows| - 1];
      var v := RowMeaning(e, schema, last);
      GroupValues(groupBy, e, schema, rows[..|rows| - 1], key)
      + (if KeyOf(groupBy, schema, last) == key && v.Some? then [v.value] else [])
  }

  /** What a call means for a group: the aggregate it names over its argument's values on the group's rows. */
  function CallValue(call: Bound, groupBy: seq<Bound>, schema: Schema, rows: seq<Row>, key: Row): Option<Value> {
    if !call.AggCall? || call.isDistinct then None
    else
      match AggregateNamed(call.funcName, |call.args|)
      case Some(ty) => Fold(ty, GroupValues(groupBy, ArgumentOf(call), schema, rows, key))
      case None => None
  }

  // ----- Planning over the rows of the child -----

  /** Where no call is allowed, a planned expression has the meaning of the original on every row. */
  lemma PlannedMeansOnRow(es: seq<Bound>, schema: Schema, row: Row, i: nat)
    requires PlanAll(es, schema, [], 0).Some? && i < |es|
    ensures PlanAll(es, schema, [], 0).value.exprs[i].Evaluate(row) == RowMeaning(es[i], schema, row)
  {
    NothingCollected(es, schema);
    PlannedListMeansOriginals(es, schema, [], 0, row, NoCalls(), i);
  }

  lemma {:induction false} ProjectedMeanings(exprs: seq<Expression>, es: seq<Bound>, schema: Schema, input: Row,
                                             row: Row, valueOf: Bound -> Option<Value>)
    requires |exprs| == |es|
    requires forall i :: 0 <= i < |es| ==> exprs[i].Evaluate(input) == Meaning(es[i], schema, row, valueOf)
    ensures ProjectRow(exprs, input) == MeaningRow(es, schema, row, valueOf)
    decreases es
  {
    if es != [] {
      ProjectedMeanings(exprs[1..], es[1..], schema, input, row, valueOf);
    }
  }

  /** The key of a row consists of the meanings of the group-by expressions. */
  lemma PlannedKeyMeans(groupBy: seq<Bound>, schema: Schema, row: Row)
    requires PlanAll(groupBy, schema, [], 0).Some?
    ensures ProjectRow(PlanAll(groupBy, schema, [], 0).value.exprs, row) == KeyOf(groupBy, schema, row)
  {
    var exprs := PlanAll(groupBy, schema, [], 0).value.exprs;
    forall i | 0 <= i < |groupBy|
      ensures exprs[i].Evaluate(row) == Meaning(groupBy[i], schema, row, NoCalls())
    {
      PlannedMeansOnRow(groupBy, schema, row, i);
    }
    ProjectedMeanings(exprs, groupBy, schema, row, row, NoCalls());
  }

  /** A planned call is the aggregate its name stands for, over the meaning of its argument. */
  lemma PlannedCallMeans(call: Bound, schema: Schema, row: Row)
    requires call.AggCall? && PlanCall(call, schema).Some?
    ensures !call.isDistinct && AggregateNamed(call.funcName, |call.args|) == Some(PlanCall(call, schema).value.aggType)
    ensures PlanCall(call, schema).value.input.Evaluate(row) == RowMeaning(ArgumentOf(call), schema, row)
  {
    if call.args != [] {
      PlannedMeansOnRow(call.args, schema, row, 0);
    }
  }

  /** The values of a planned expression on the rows of a group, in the order of the rows. */
  function GroupColumn(groupBys: seq<Expression>, input: Expression, rows: seq<Row>, key: Row): seq<Value> {
    if rows == [] then []
    else
      var last := rows[|rows| - 1];
      var v := input.Evaluate(last);
      GroupColumn(groupBys, input, rows[..|rows| - 1], key)
      + (if ProjectRow(groupBys, last) == key && v.Some? then [v.value] else [])
  }

  /** The values a planned call aggregates are those of the call's argument on the group's rows. */
  lemma {:induction false} GroupColumnMeans(groupBy: seq<Bound>, call: Bound, schema: Schema, rows: seq<Row>, key: Row)
    requires PlanAll(groupBy, schema, [], 0).Some? && call.AggCall? && PlanCall(call, schema).Some?
    ensures GroupColumn(PlanAll(groupBy, schema, [], 0).value.exprs, PlanCall(call, schema).value.input, rows, key)
         == GroupValues(groupBy, ArgumentOf(call), schema, rows, key)
  {
    if rows != [] {
      PlannedKeyMeans(groupBy, schema, rows[|rows| - 1]);
      PlannedCallMeans(call, schema, rows[|rows| - 1]);
      GroupColumnMeans(groupBy, call, schema, rows[..|rows| - 1], key);
    }
  }

  lemma {:induction false} ProjectRowAt(exprs: seq<Expression>, row: Row, i: nat)
    requires |ProjectRow(exprs, row)| == |exprs| && i < |exprs|
    ensures exprs[i].Evaluate(row) == Some(ProjectRow(exprs, row)[i])
  {
    ProjectRowIsNoLonger(exprs[1..], row);
    if i > 0 {
      ProjectRowAt(exprs[1..], row, i - 1);
    }
  }

  lemma {:induction false} ProjectRowIsNoLonger(exprs: seq<Expression>, row: Row)
    ensures |ProjectRow(exprs, row)| <= |exprs|
  {
    if exprs != [] {
      ProjectRowIsNoLonger(exprs[1..], row);
    }
  }

  predicate AllEvaluate(exprs: seq<Expression>, rows: seq<Row>) {
    forall r :: r in rows ==> |ProjectRow(exprs, r)| == |exprs|
  }

  /** What the aggregation folds for the i-th call are the values of that call's argument. */
  lemma {:induction false} GroupInputsAreColumn(groupBys: seq<Expression>, inputs: seq<Expression>, rows: seq<Row>,
                                                key: Row, i: nat)
    requires AllEvaluate(inputs, rows) && i < |inputs|
    ensures forall e :: e in EntriesOf(groupBys, inputs, rows) ==> i < |e.inputs|
    ensures GroupInputs(EntriesOf(groupBys, inputs, rows), key, i) == GroupColumn(groupBys, inputs[i], rows, key)
  {
    var es := EntriesOf(groupBys, inputs, rows);
    forall e | e in es
      ensures i < |e.inputs|
    {
      var j :| 0 <= j < |es| && es[j] == e;
      assert rows[j] in rows;
    }
    if rows != [] {
      var front, last := rows[..|rows| - 1], rows[|rows| - 1];
      assert last in rows;
      assert es[..|es| - 1] == EntriesOf(groupBys, inputs, front);
      GroupInputsAreColumn(groupBys, inputs, front, key, i);
      ProjectRowAt(inputs, last, i);
    }
  }

  /** The i-th aggregate column of a group's row holds the aggregate of the i-th planned call over the group. */
  lemma ColumnHoldsFold(groupBys: seq<Expression>, calls: seq<PlannedCall>, rows: seq<Row>, t: Table, key: Row, i: nat)
    requires AllEvaluate(Inputs(calls), rows) && EntriesFit(AggTypes(calls), EntriesOf(groupBys, Inputs(calls), rows))
    requires TableOf(AggTypes(calls), EntriesOf(groupBys, Inputs(calls), rows)) == Some(t)
    requires |key| == |groupBys| && i < |calls|
    ensures AggColumns(|groupBys|, |calls|)[i].Evaluate(key + Before(AggTypes(calls), t, key))
         == Fold(calls[i].aggType, GroupColumn(groupBys, calls[i].input, rows, key))
  {
    TableHoldsGroupFold(AggTypes(calls), EntriesOf(groupBys, Inputs(calls), rows), key, i);
    GroupInputsAreColumn(groupBys, Inputs(calls), rows, key, i);
    var values := Before(AggTypes(calls), t, key);
    assert (key + values)[|key| + i] == values[i];
  }

  // ----- Whole queries -----

  /** A planned query on the rows of its child: both phases succeeded and the aggregation yielded a table. */
  datatype Query = Query(statement: SelectStatement, child: Plan, rows: seq<Row>)
  {
    predicate Planned() {
      PlanSelectAgg(statement, child).Some?
    }

    function One(): PhaseOne
      requires Planned()
    {
      PlanPhaseOne(statement, child.schema).value
    }

    function Schema(): Schema
      requires Planned()
    {
      AggregationOf(One(), child).schema
    }

    function Two(): PlannedList
      requires Planned()
    {
      PlanAll(StatementExpressions(statement), Schema(), AggColumns(|One().groupBys|, |One().calls|), 0).value
    }

    function Entries(): seq<Entry>
      requires Planned()
    {
      EntriesOf(One().groupBys, Inputs(One().calls), rows)
    }

    predicate Aggregated() {
      Planned() && AllEvaluate(Inputs(One().calls), rows) && AllEvaluate(One().groupBys, rows)
      && EntriesFit(AggTypes(One().calls), Entries()) && TableOf(AggTypes(One().calls), Entries()).Some?
    }

    function Stored(): Table
      requires Aggregated()
    {
      TableOf(AggTypes(One().calls), Entries()).value
    }

    /**
     * The groups: those of the table, or a single one without rows where the engine makes up for an empty
     * table. It only does so for a single call without GROUP BY.
     */
    function Groups(): Table
      requires Aggregated()
    {
      if Stored() == map[] && statement.groupBy == [] && |One().calls| == 1
      then map[[] := InitialValues(AggTypes(One().calls))]
      else Stored()
    }

    /** The aggregation's output row for a group. */
    function GroupRow(key: Row): Row
      requires Aggregated() && key in Groups()
    {
      key + Groups()[key]
    }

    function ValueOf(key: Row): Bound -> Option<Value> {
      call => CallValue(call, statement.groupBy, child.schema, rows, key)
    }

    /** What an expression of the statement means for a group. */
    function MeaningFor(e: Bound, key: Row): Option<Value>
      requires Aggregated() && key in Groups()
    {
      Meaning(e, Schema(), GroupRow(key), ValueOf(key))
    }

    /** The keys in the table are those of the rows. */
    lemma KeysOfRows(key: Row)
      requires Planned()
      ensures key in KeysOf(Entries()) <==> exists r :: r in rows && KeyOf(statement.groupBy, child.schema, r) == key
    {
      forall i | 0 <= i < |rows|
        ensures Entries()[i].key == KeyOf(statement.groupBy, child.schema, rows[i])
      {
        PlannedKeyMeans(statement.groupBy, child.schema, rows[i]);
      }
      if r :| r in rows && KeyOf(statement.groupBy, child.schema, r) == key {
        var i :| 0 <= i < |rows| && rows[i] == r;
        assert Entries()[i] in Entries();
      }
    }

    /** There is one group for each key some row has; without rows there is none, or a made up one. */
    lemma GroupsAreKeys(key: Row)
      requires Aggregated()
      ensures key in Groups() <==>
                if rows != [] then exists r :: r in rows && KeyOf(statement.groupBy, child.schema, r) == key
                else key == [] && statement.groupBy == [] && |One().calls| == 1
    {
      TableHasAllKeys(AggTypes(One().calls), Entries());
      KeysOfRows(key);
      if rows != [] {
        assert Entries()[0] in Entries();
        assert Entries()[0].key in Stored();
      }
    }

    lemma KeysAreFull(key: Row)
      requires Aggregated() && key in Groups()
      ensures |key| == |One().groupBys| && Groups()[key] == Before(AggTypes(One().calls), Stored(), key)
    {
      if key in Stored() {
        TableHasAllKeys(AggTypes(One().calls), Entries());
        var e :| e in Entries() && e.key == key;
        var i :| 0 <= i < |rows| && Entries()[i] == e;
        assert rows[i] in rows;
      }
    }

    lemma CallIsPlanned(i: nat)
      requires Planned() && i < |One().calls|
      ensures i < |CallsOfAll(StatementExpressions(statement))|
      ensures var call := CallsOfAll(StatementExpressions(statement))[i];
              call.AggCall? && PlanCall(call, child.schema) == Some(One().calls[i])
    {
      var calls := CallsOfAll(StatementExpressions(statement));
      AllCallsAreCalls(StatementExpressions(statement));
      PlanCallsAt(calls, child.schema, i);
      assert calls[i] in calls;
    }

    /** The i-th aggregate column of a group's row holds the value of the i-th call collected. */
    lemma ColumnHoldsCallValue(key: Row, i: nat)
      requires Aggregated() && key in Groups() && i < |One().calls|
      ensures i < |CallsOfAll(StatementExpressions(statement))|
      ensures AggColumns(|One().groupBys|, |One().calls|)[i].Evaluate(GroupRow(key))
           == ValueOf(key)(CallsOfAll(StatementExpressions(statement))[i])
    {
      CallIsPlanned(i);
      KeysAreFull(key);
      ColumnHoldsFold(One().groupBys, One().calls, rows, Stored(), key, i);
      var call := CallsOfAll(StatementExpressions(statement))[i];
      GroupColumnMeans(statement.groupBy, call, child.schema, rows, key);
      PlannedCallMeans(call, child.schema, []);
    }

    /** The columns of the group's row yield the values of the calls, in the order in which they were collected. */
    lemma ColumnsYieldCalls(key: Row)
      requires Aggregated() && key in Groups()
      ensures Yields(AggColumns(|One().groupBys|, |One().calls|), 0, CallsOfAll(StatementExpressions(statement)),
                     GroupRow(key), ValueOf(key))
    {
      var exprs := AggColumns(|One().groupBys|, |One().calls|);
      forall i | 0 <= i < |One().calls|
        ensures exprs[0 + i].Evaluate(GroupRow(key)) == ValueOf(key)(CallsOfAll(StatementExpressions(statement))[i])
      {
        ColumnHoldsCallValue(key, i);
      }
    }

    /** Two-phase planning preserves meaning: each planned expression, on a group's row, is the original. */
    lemma PhasesPreserveMeaning(key: Row, i: nat)
      requires Aggregated() && key in Groups() && i < |StatementExpressions(statement)|
      ensures Two().exprs[i].Evaluate(GroupRow(key)) == MeaningFor(StatementExpressions(statement)[i], key)
    {
      ColumnsYieldCalls(key);
      PlannedListMeansOriginals(StatementExpressions(statement), Schema(), AggColumns(|One().groupBys|, |One().calls|),
                                0, GroupRow(key), ValueOf(key), i);
    }

    /** Every collected call is planned once and consumed once. */
    lemma CallsAreConsumedOnce()
      requires Planned()
      ensures Two().next == |One().calls| == |CallsOfAll(StatementExpressions(statement))|
    {
      PlanningConsumesAllCalls(StatementExpressions(statement), Schema(), AggColumns(|One().groupBys|, |One().calls|),
                               0);
    }

    /** A column that resolves to a group-by expression has the value this expression has on every row of the group. */
    lemma ColumnIsGroupKey(name: string, key: Row, r: Row)
      requires Aggregated() && key in Groups() && r in rows && KeyOf(statement.groupBy, child.schema, r) == key
      requires Lookup(Schema(), name).Some? && Lookup(Schema(), name).value < |statement.groupBy|
      ensures var i := Lookup(Schema(), name).value;
              One().names[i] == name
              && MeaningFor(ColumnRef(name), key) == RowMeaning(statement.groupBy[i], child.schema, r)
    {
      var i := Lookup(Schema(), name).value;
      NamedOnce(Schema(), name, i);
      KeysAreFull(key);
      PlannedKeyMeans(statement.groupBy, child.schema, r);
      PlannedMeansOnRow(statement.groupBy, child.schema, r, i);
      ProjectRowAt(One().groupBys, r, i);
    }

    // ----- The result of the query -----

    /** What the select list means for a group. */
    function SelectedMeanings(key: Row): Row
      requires Aggregated() && key in Groups()
    {
      MeaningRow(statement.selectList, Schema(), GroupRow(key), ValueOf(key))
    }

    /** For each group that passes HAVING, the meanings of the select list. */
    function Result(order: seq<Row>): seq<Row>
      requires Aggregated() && forall k :: k in order ==> k in Groups()
    {
      if order == [] then []
      else (if Selected(order[0]) then [SelectedMeanings(order[0])] else []) + Result(order[1..])
    }

    function Offset(): nat {
      if statement.having.Some? then 1 else 0
    }

    lemma SelectOffset(i: nat)
      requires i < |statement.selectList|
      ensures |StatementExpressions(statement)| == Offset() + |statement.selectList|
      ensures StatementExpressions(statement)[Offset() + i] == statement.selectList[i]
    {
    }

    function SelectExpressions(): seq<Expression>
      requires Planned()
    {
      Two().exprs[Offset()..]
    }

    /** What the filter and the projection make of the group rows. */
    function Output(groupRows: seq<Row>): seq<Row>
      requires Planned()
    {
      ProjectRows(SelectExpressions(),
                  if statement.having.Some? then FilterRows(Two().exprs[0], groupRows) else groupRows)
    }

    predicate PassesHaving(row: Row)
      requires Planned()
    {
      statement.having.Some? ==> FilterTest(Two().exprs[0])(row)
    }

    lemma OutputStep(row: Row, groupRows: seq<Row>)
      requires Planned()
      ensures Output([row] + groupRows)
           == (if PassesHaving(row) then [ProjectRow(SelectExpressions(), row)] else []) + Output(groupRows)
    {
      if statement.having.Some? {
        KeepCons(FilterTest(Two().exprs[0]), row, groupRows);
      }
    }

    predicate Selected(key: Row)
      requires Aggregated() && key in Groups()
    {
      statement.having.Some? ==> Passes(MeaningFor(statement.having.value, key))
    }

    lemma SelectedMeans(key: Row)
      requires Aggregated() && key in Groups()
      ensures PassesHaving(GroupRow(key)) == Selected(key)
    {
      if statement.having.Some? {
        PhasesPreserveMeaning(key, 0);
      }
    }

    lemma SelectedValue(key: Row, i: nat)
      requires Aggregated() && key in Groups() && i < |statement.selectList|
      ensures |SelectExpressions()| == |statement.selectList|
      ensures SelectExpressions()[i].Evaluate(GroupRow(key)) == MeaningFor(statement.selectList[i], key)
    {
      SelectOffset(i);
      PhasesPreserveMeaning(key, Offset() + i);
    }

    lemma SelectedRow(key: Row)
      requires Aggregated() && key in Groups()
      ensures ProjectRow(SelectExpressions(), GroupRow(key)) == SelectedMeanings(key)
    {
      assert |SelectExpressions()| == |statement.selectList|;
      forall i | 0 <= i < |statement.selectList|
        ensures SelectExpressions()[i].Evaluate(GroupRow(key)) == MeaningFor(statement.selectList[i], key)
      {
        SelectedValue(key, i);
      }
      ProjectedMeanings(SelectExpressions(), statement.selectList, Schema(), GroupRow(key), GroupRow(key),
                        ValueOf(key));
    }

    /** Executing the planned operators on the groups, in any order, yields the result the statement asks for. */
    lemma {:induction false} PlanComputesResult(order: seq<Row>)
      requires Aggregated() && forall k :: k in order ==> k in Groups()
      ensures Output(GroupRows(Groups(), order)) == Result(order)
      decreases order
    {
      if order == [] {
        assert GroupRows(Groups(), order) == [];
      } else {
        assert GroupRows(Groups(), order) == [GroupRow(order[0])] + GroupRows(Groups(), order[1..]);
        SelectedMeans(order[0]);
        SelectedRow(order[0]);
        OutputStep(GroupRow(order[0]), GroupRows(Groups(), order[1..]));
        PlanComputesResult(order[1..]);
      }
    }
  }
}
