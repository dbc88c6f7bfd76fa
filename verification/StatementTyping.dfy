/** Which statements are planned into well-formed plans. */
module StatementTyping {
  import opened Types
  import opened Expressions
  import opened Aggregates
  import opened Plans
  import opened AggregationPlans
  import opened AggregationMeaning

  predicate ComparesByName(name: string) {
    name in {"=", "==", "!=", "<>", "<", "<=", ">", ">="}
  }

  /** The type that the operator of this name gives operands of these types; None if it does not take them. */
  function SqlType(name: string, l: TypeId, r: TypeId): Option<TypeId> {
    if ComparesByName(name) then (if IsInteger(l) == IsInteger(r) then Some(BOOLEAN) else None)
    else if name == "+" || name == "-" then (if l == r == INTEGER then Some(INTEGER) else None)
    else if name == "and" || name == "or" then (if l == r == BOOLEAN then Some(BOOLEAN) else None)
    else None
  }

  lemma NamedOperatorType(name: string, l: TypeId, r: TypeId)
    ensures SqlType(name, l, r)
         == if OperatorNamed(name).Some? && OperatorNamed(name).value.Accepts(l, r)
            then Some(OperatorNamed(name).value.ReturnType()) else None
    ensures ComparesByName(name) <==> OperatorNamed(name).Some? && OperatorNamed(name).value.Comparison?
  {
  }

  /** The type of an expression over rows of the schema, with INTEGER calls; None if it has none. */
  function TypeIn(e: Bound, schema: Schema): Option<TypeId> {
    match e
    case AggCall(_, _, _) => Some(INTEGER)
    case ColumnRef(name) =>
      (match Lookup(schema, name)
       case Some(i) => NamedOnce(schema, name, i); Some(schema[i].ty)
       case None => None)
    case Literal(v) => if v.HasType(v.TypeOf()) then Some(v.TypeOf()) else None
    case BinaryOp(op, l, r) =>
      var x, y := TypeIn(l, schema), TypeIn(r, schema);
      if x.Some? && y.Some? then SqlType(op, x.value, y.value) else None
    case Alias(_, c) => TypeIn(c, schema)
    case Unsupported => None
  }

  /** The columns that stand for the calls are INTEGER columns of the schema. */
  predicate ColumnsOf(exprs: seq<Expression>, schema: Schema) {
    forall x :: x in exprs ==> Typed(x, TypesOf(schema), []) && x.ReturnType() == INTEGER
  }

  predicate HasTypeIn(x: Expression, e: Bound, schema: Schema) {
    && (Typed(x, TypesOf(schema), []) <==> TypeIn(e, schema).Some?)
    && (TypeIn(e, schema).Some? ==> TypeIn(e, schema).value == x.ReturnType())
  }

  lemma {:induction false} PlannedHasType(e: Bound, schema: Schema, exprs: seq<Expression>, next: nat)
    requires PlanBound(e, schema, exprs, next).Some? && ColumnsOf(exprs, schema)
    ensures HasTypeIn(PlanBound(e, schema, exprs, next).value.expr, e, schema)
  {
    match e
    case BinaryOp(op, l, r) =>
      PlannedHasType(l, schema, exprs, next);
      PlannedHasType(r, schema, exprs, PlanBound(l, schema, exprs, next).value.next);
      if TypeIn(l, schema).Some? && TypeIn(r, schema).Some? {
        NamedOperatorType(op, TypeIn(l, schema).value, TypeIn(r, schema).value);
      }
    case Alias(_, c) => PlannedHasType(c, schema, exprs, next);
    case ColumnRef(name) => NamedOnce(schema, name, 0);
    case _ =>
  }

  lemma {:induction false} PlannedListHasTypes(es: seq<Bound>, schema: Schema, exprs: seq<Expression>, next: nat,
                                               i: nat)
    requires PlanAll(es, schema, exprs, next).Some? && ColumnsOf(exprs, schema) && i < |es|
    ensures HasTypeIn(PlanAll(es, schema, exprs, next).value.exprs[i], es[i], schema)
  {
    var front := es[..|es| - 1];
    if i < |front| {
      PlannedListHasTypes(front, schema, exprs, next, i);
    } else {
      PlannedHasType(es[i], schema, exprs, PlanAll(front, schema, exprs, next).value.next);
    }
  }

  predicate AllTyped(es: seq<Bound>, schema: Schema) {
    forall i :: 0 <= i < |es| ==> TypeIn(es[i], schema).Some?
  }

  /** The call's argument is typed, and INTEGER unless the call only counts. */
  predicate CallTyped(call: Bound, schema: Schema)
    requires call.AggCall?
  {
    var ty := TypeIn(ArgumentOf(call), schema);
    ty.Some? && (call.funcName in {"sum", "min", "max"} ==> ty.value == INTEGER)
  }

  predicate InputTyped(c: PlannedCall, types: seq<TypeId>) {
    Typed(c.input, types, [])
    && (c.aggType in {SumAggregate, MinAggregate, MaxAggregate} ==> c.input.ReturnType() == INTEGER)
  }

  lemma PlannedCallTypedIff(call: Bound, schema: Schema)
    requires call.AggCall? && PlanCall(call, schema).Some?
    ensures InputTyped(PlanCall(call, schema).value, TypesOf(schema)) <==> CallTyped(call, schema)
  {
    if call.args != [] {
      PlannedListHasTypes(call.args, schema, [], 0, 0);
    }
  }

  predicate CallsTyped(calls: seq<Bound>, schema: Schema) {
    forall i :: 0 <= i < |calls| ==> calls[i].AggCall? && CallTyped(calls[i], schema)
  }

  lemma GroupBysTypedIff(s: SelectStatement, schema: Schema)
    requires PlanPhaseOne(s, schema).Some?
    ensures var one := PlanPhaseOne(s, schema).value;
            (ExpressionsTyped(one.groupBys, TypesOf(schema),
                              TypesOf(AggSchema(one.names, one.groupBys, |one.calls|))[..|one.groupBys|])
             <==> AllTyped(s.groupBy, schema))
  {
    var one := PlanPhaseOne(s, schema).value;
    forall i | 0 <= i < |s.groupBy|
      ensures HasTypeIn(one.groupBys[i], s.groupBy[i], schema)
    {
      PlannedListHasTypes(s.groupBy, schema, [], 0, i);
    }
  }

  lemma InputsTypedIff(s: SelectStatement, schema: Schema)
    requires PlanPhaseOne(s, schema).Some?
    ensures var one := PlanPhaseOne(s, schema).value;
            (AggregatesTyped(Inputs(one.calls), AggTypes(one.calls), TypesOf(schema))
             <==> CallsTyped(CallsOfAll(StatementExpressions(s)), schema))
  {
    var calls, planned := CallsOfAll(StatementExpressions(s)), PlanPhaseOne(s, schema).value.calls;
    AllCallsAreCalls(StatementExpressions(s));
    forall i | 0 <= i < |calls|
      ensures calls[i].AggCall? && (InputTyped(planned[i], TypesOf(schema)) <==> CallTyped(calls[i], schema))
    {
      assert calls[i] in calls;
      PlanCallsAt(calls, schema, i);
      PlannedCallTypedIff(calls[i], schema);
    }
    assert forall i :: 0 <= i < |planned| ==>
                         Inputs(planned)[i] == planned[i].input && AggTypes(planned)[i] == planned[i].aggType;
  }

  lemma AggSchemaTypes(names: seq<string>, groupBys: seq<Expression>, count: nat)
    requires |names| == |groupBys|
    ensures var types := TypesOf(AggSchema(names, groupBys, count));
            |types| == |groupBys| + count && forall i :: |groupBys| <= i < |types| ==> types[i] == INTEGER
  {
  }

  lemma AggregationTypedParts(groupBys: seq<Expression>, aggregates: seq<Expression>, aggTypes: seq<AggregationType>,
                              input: seq<TypeId>, output: seq<TypeId>)
    requires |output| == |groupBys| + |aggTypes| && forall i :: |groupBys| <= i < |output| ==> output[i] == INTEGER
    ensures UnaryTyped(Aggregation(groupBys, aggregates, aggTypes), input, output) <==>
            ExpressionsTyped(groupBys, input, output[..|groupBys|]) && AggregatesTyped(aggregates, aggTypes, input)
  {
  }

  lemma AggregationTypedIff(s: SelectStatement, child: Plan)
    requires PlanPhaseOne(s, child.schema).Some?
    ensures var agg := AggregationOf(PlanPhaseOne(s, child.schema).value, child);
            (UnaryTyped(agg.op, child.Types(), agg.Types())
             <==> AllTyped(s.groupBy, child.schema) && CallsTyped(CallsOfAll(StatementExpressions(s)), child.schema))
  {
    var one := PlanPhaseOne(s, child.schema).value;
    GroupBysTypedIff(s, child.schema);
    InputsTypedIff(s, child.schema);
    AggSchemaTypes(one.names, one.groupBys, |one.calls|);
    AggregationTypedParts(one.groupBys, Inputs(one.calls), AggTypes(one.calls), child.Types(),
                          TypesOf(AggSchema(one.names, one.groupBys, |one.calls|)));
  }

  lemma CallColumnsAreTyped(names: seq<string>, groupBys: seq<Expression>, count: nat)
    requires |names| == |groupBys|
    ensures ColumnsOf(AggColumns(|groupBys|, count), AggSchema(names, groupBys, count))
  {
    var exprs, schema := AggColumns(|groupBys|, count), AggSchema(names, groupBys, count);
    forall x | x in exprs
      ensures Typed(x, TypesOf(schema), []) && x.ReturnType() == INTEGER
    {
      var i :| 0 <= i < |exprs| && exprs[i] == x;
      assert TypesOf(schema)[|groupBys| + i] == INTEGER;
    }
  }

  lemma ProjectionTypedIff(names: seq<string>, exprs: seq<Expression>, types: seq<TypeId>)
    requires |names| == |exprs|
    ensures UnaryTyped(Projection(exprs), types, TypesOf(ProjectionSchema(names, exprs)))
       <==> forall i :: 0 <= i < |exprs| ==> Typed(exprs[i], types, [])
  {
  }

  lemma PhaseTwoTypedIff(db: Database, s: SelectStatement, agg: Plan, two: PlannedList)
    requires |two.names| == |two.exprs| == |StatementExpressions(s)|
    ensures WellFormed(db, PlanPhaseTwo(s, agg, two))
       <==> WellFormed(db, agg) && forall i :: 0 <= i < |two.exprs| ==> Typed(two.exprs[i], agg.Types(), [])
  {
    if s.having.Some? {
      var p := PlanPhaseTwo(s, agg, two);
      ProjectionTypedIff(two.names[1..], two.exprs[1..], agg.Types());
      assert WellFormed(db, p.child) <==> WellFormed(db, agg) && Typed(two.exprs[0], agg.Types(), []);
      assert forall i :: 1 <= i < |two.exprs| ==> two.exprs[i] == two.exprs[1..][i - 1];
    } else {
      ProjectionTypedIff(two.names, two.exprs, agg.Types());
    }
  }

  /** Group-by expressions and calls are typed over the child's columns, the rest over those of the aggregation. */
  predicate StatementTyped(s: SelectStatement, child: Plan)
    requires PlanPhaseOne(s, child.schema).Some?
  {
    && AllTyped(s.groupBy, child.schema)
    && CallsTyped(CallsOfAll(StatementExpressions(s)), child.schema)
    && AllTyped(StatementExpressions(s), AggregationOf(PlanPhaseOne(s, child.schema).value, child).schema)
  }

  /** The planner itself tests little: its plan is well-formed exactly if the statement is typed. */
  lemma PlanIsWellFormedIff(db: Database, s: SelectStatement, child: Plan)
    requires PlanSelectAgg(s, child).Some?
    ensures WellFormed(db, PlanSelectAgg(s, child).value) <==> WellFormed(db, child) && StatementTyped(s, child)
  {
    var one, es := PlanPhaseOne(s, child.schema).value, StatementExpressions(s);
    var agg := AggregationOf(one, child);
    var two := PlanAll(es, agg.schema, AggColumns(|one.groupBys|, |one.calls|), 0).value;
    CallColumnsAreTyped(one.names, one.groupBys, |one.calls|);
    forall i | 0 <= i < |es|
      ensures HasTypeIn(two.exprs[i], es[i], agg.schema)
    {
      PlannedListHasTypes(es, agg.schema, AggColumns(|one.groupBys|, |one.calls|), 0, i);
    }
    AggregationTypedIff(s, child);
    PhaseTwoTypedIff(db, s, agg, two);
  }

  // ----- Which statements are planned at all -----

  /**
   * The type that the planner sees: it does not test what is compared. None where it throws, for a column
   * that is missing or ambiguous, an unknown operator, or operands that AND, OR, + and - do not take.
   */
  function SeenType(e: Bound, schema: Schema): Option<TypeId> {
    match e
    case AggCall(_, _, _) => Some(INTEGER)
    case ColumnRef(name) =>
      (match Lookup(schema, name)
       case Some(i) => NamedOnce(schema, name, i); Some(schema[i].ty)
       case None => None)
    case Literal(v) => Some(v.TypeOf())
    case BinaryOp(op, l, r) =>
      var x, y := SeenType(l, schema), SeenType(r, schema);
      if x.None? || y.None? then None
      else if ComparesByName(op) then Some(BOOLEAN)
      else SqlType(op, x.value, y.value)
    case Alias(_, c) => SeenType(c, schema)
    case Unsupported => None
  }

  predicate AllIntegerColumns(exprs: seq<Expression>) {
    forall x :: x in exprs ==> x.ReturnType() == INTEGER
  }

  /** There is a column for every call. */
  predicate EnoughColumns(calls: nat, exprs: seq<Expression>, next: nat) {
    calls == 0 || next + calls <= |exprs|
  }

  /** An expression is planned exactly if the planner sees a type and has a column for each of its calls. */
  lemma {:induction false} PlannedIff(e: Bound, schema: Schema, exprs: seq<Expression>, next: nat)
    requires AllIntegerColumns(exprs)
    ensures PlanBound(e, schema, exprs, next).Some? <==>
              SeenType(e, schema).Some? && EnoughColumns(|Calls(e)|, exprs, next)
    ensures PlanBound(e, schema, exprs, next).Some? ==>
              PlanBound(e, schema, exprs, next).value.expr.ReturnType() == SeenType(e, schema).value
  {
    match e
    case BinaryOp(op, l, r) =>
      PlannedIff(l, schema, exprs, next);
      var pl := PlanBound(l, schema, exprs, next);
      if pl.Some? {
        PlanningConsumesCalls(l, schema, exprs, next);
        PlannedIff(r, schema, exprs, pl.value.next);
        if SeenType(r, schema).Some? {
          NamedOperatorType(op, SeenType(l, schema).value, SeenType(r, schema).value);
        }
      }
    case Alias(_, c) => PlannedIff(c, schema, exprs, next);
    case ColumnRef(name) => NamedOnce(schema, name, 0);
    case _ =>
  }

  predicate AllSeen(es: seq<Bound>, schema: Schema) {
    forall i :: 0 <= i < |es| ==> SeenType(es[i], schema).Some?
  }

  lemma {:induction false} ListPlannedIff(es: seq<Bound>, schema: Schema, exprs: seq<Expression>, next: nat)
    requires AllIntegerColumns(exprs)
    ensures PlanAll(es, schema, exprs, next).Some? <==>
              AllSeen(es, schema) && EnoughColumns(|CallsOfAll(es)|, exprs, next)
  {
    if es != [] {
      var front, last := es[..|es| - 1], es[|es| - 1];
      ListPlannedIff(front, schema, exprs, next);
      assert AllSeen(es, schema) <==> AllSeen(front, schema) && SeenType(last, schema).Some?;
      if PlanAll(front, schema, exprs, next).Some? {
        PlanningConsumesAllCalls(front, schema, exprs, next);
        PlannedIff(last, schema, exprs, next + |CallsOfAll(front)|);
      }
    }
  }

  /** The call names an aggregate, is not DISTINCT, and its arguments are planned without calls. */
  predicate CallPlannable(call: Bound, schema: Schema)
    requires call.AggCall?
  {
    && !call.isDistinct && AggregateNamed(call.funcName, |call.args|).Some?
    && AllSeen(call.args, schema) && CallsOfAll(call.args) == []
  }

  lemma CallPlannedIff(call: Bound, schema: Schema)
    requires call.AggCall?
    ensures PlanCall(call, schema).Some? <==> CallPlannable(call, schema)
  {
    ListPlannedIff(call.args, schema, [], 0);
  }

  predicate CallsPlannable(calls: seq<Bound>, schema: Schema) {
    forall i :: 0 <= i < |calls| ==> calls[i].AggCall? && CallPlannable(calls[i], schema)
  }

  lemma {:induction false} CallsPlannedIff(calls: seq<Bound>, schema: Schema)
    requires forall c :: c in calls ==> c.AggCall?
    ensures PlanCalls(calls, schema).Some? <==> CallsPlannable(calls, schema)
  {
    if calls != [] {
      var front, last := calls[..|calls| - 1], calls[|calls| - 1];
      CallsPlannedIff(front, schema);
      CallPlannedIff(last, schema);
      assert CallsPlannable(calls, schema) <==> CallsPlannable(front, schema) && CallPlannable(last, schema);
    }
  }

  /** Collecting calls refuses no expression for which the planner sees a type. */
  lemma {:induction false} SeenIsSupported(e: Bound, schema: Schema)
    requires SeenType(e, schema).Some?
    ensures Supported(e)
  {
    match e
    case BinaryOp(_, l, r) =>
      SeenIsSupported(l, schema);
      SeenIsSupported(r, schema);
    case Alias(_, c) => SeenIsSupported(c, schema);
    case _ =>
  }

  /** What the first phase needs: group-by expressions without calls, supported expressions, plannable calls. */
  predicate PhaseOneOk(s: SelectStatement, schema: Schema) {
    && AllSeen(s.groupBy, schema) && CallsOfAll(s.groupBy) == []
    && AllSupported(StatementExpressions(s)) && CallsPlannable(CallsOfAll(StatementExpressions(s)), schema)
  }

  lemma PhaseOneIff(s: SelectStatement, schema: Schema)
    ensures PlanPhaseOne(s, schema).Some? <==> PhaseOneOk(s, schema)
  {
    AllCallsAreCalls(StatementExpressions(s));
    ListPlannedIff(s.groupBy, schema, [], 0);
    CallsPlannedIff(CallsOfAll(StatementExpressions(s)), schema);
  }

  /** Planning throws exactly where a call, an operator, a column or its place in the statement is refused. */
  lemma PlanSelectAggIff(s: SelectStatement, child: Plan)
    ensures PlanSelectAgg(s, child).Some? <==>
              && PhaseOneOk(s, child.schema) && PlanPhaseOne(s, child.schema).Some?
              && AllSeen(StatementExpressions(s), AggregationOf(PlanPhaseOne(s, child.schema).value, child).schema)
  {
    PhaseOneIff(s, child.schema);
    if PlanPhaseOne(s, child.schema).Some? {
      var one := PlanPhaseOne(s, child.schema).value;
      ListPlannedIff(StatementExpressions(s), AggregationOf(one, child).schema,
                     AggColumns(|one.groupBys|, |one.calls|), 0);
    }
  }

  // ----- The columns of the result -----

  /** The name of a column of the result: the alias, or the name of the column it is, if it is one. */
  function OutputName(e: Bound): string {
    match e
    case Alias(a, _) => a
    case ColumnRef(name) => name
    case _ => UNNAMED_COLUMN
  }

  lemma PlannedName(e: Bound, schema: Schema, exprs: seq<Expression>, next: nat)
    requires PlanBound(e, schema, exprs, next).Some?
    ensures PlanBound(e, schema, exprs, next).value.name == OutputName(e)
  {
  }

  lemma {:induction false} PlannedNames(es: seq<Bound>, schema: Schema, exprs: seq<Expression>, next: nat, i: nat)
    requires PlanAll(es, schema, exprs, next).Some? && i < |es|
    ensures PlanAll(es, schema, exprs, next).value.names[i] == OutputName(es[i])
  {
    var front := es[..|es| - 1];
    if i < |front| {
      PlannedNames(front, schema, exprs, next, i);
    } else {
      PlannedName(es[i], schema, exprs, PlanAll(front, schema, exprs, next).value.next);
    }
  }

  /** The columns of a planned query are those of the select list: names in order, and types if it is typed. */
  lemma ResultColumns(s: SelectStatement, child: Plan, i: nat)
    requires PlanSelectAgg(s, child).Some? && i < |s.selectList|
    ensures |PlanSelectAgg(s, child).value.schema| == |s.selectList|
    ensures PlanSelectAgg(s, child).value.schema[i].name == OutputName(s.selectList[i])
    ensures var agg := AggregationOf(PlanPhaseOne(s, child.schema).value, child).schema;
            TypeIn(s.selectList[i], agg).Some? ==>
              PlanSelectAgg(s, child).value.schema[i].ty == TypeIn(s.selectList[i], agg).value
  {
    var one, es := PlanPhaseOne(s, child.schema).value, StatementExpressions(s);
    var agg, columns := AggregationOf(one, child), AggColumns(|one.groupBys|, |one.calls|);
    var offset := if s.having.Some? then 1 else 0;
    assert es[offset + i] == s.selectList[i];
    CallColumnsAreTyped(one.names, one.groupBys, |one.calls|);
    PlannedNames(es, agg.schema, columns, 0, offset + i);
    PlannedListHasTypes(es, agg.schema, columns, 0, offset + i);
  }

  /** The columns HAVING and the select list may refer to: group-by expressions by name, then one for each call. */
  lemma GroupedColumns(s: SelectStatement, child: Plan, i: nat)
    requires PlanPhaseOne(s, child.schema).Some?
    ensures var schema := AggregationOf(PlanPhaseOne(s, child.schema).value, child).schema;
            && |schema| == |s.groupBy| + |CallsOfAll(StatementExpressions(s))|
            && (i < |s.groupBy| ==> schema[i].name == OutputName(s.groupBy[i]))
            && (|s.groupBy| <= i < |schema| ==> schema[i] == Column("agg#" + Decimal(i - |s.groupBy|), INTEGER))
  {
    if i < |s.groupBy| {
      PlannedNames(s.groupBy, child.schema, [], 0, i);
    }
  }

  function DigitValue(c: char): int {
    c as int - '0' as int
  }

  /** Different numbers are written differently, so that no two calls share a column. */
  lemma {:induction false} DecimalsDiffer(m: nat, n: nat)
    ensures Decimal(m) == Decimal(n) <==> m == n
    ensures Decimal(m) != ""
    decreases m + n
  {
    var x, y := Decimal(m), Decimal(n);
    assert DigitValue(x[|x| - 1]) == m % 10 && DigitValue(y[|y| - 1]) == n % 10;
    if m >= 10 && n >= 10 {
      DecimalsDiffer(m / 10, n / 10);
      assert x[..|x| - 1] == Decimal(m / 10) && y[..|y| - 1] == Decimal(n / 10);
    } else if m >= 10 {
      DecimalsDiffer(m / 10, 0);
    } else if n >= 10 {
      DecimalsDiffer(n / 10, 0);
    }
  }
}
