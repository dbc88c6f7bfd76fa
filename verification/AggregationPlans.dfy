/**
 * Two-phase planning of grouped queries as functions: collecting the aggregate calls of the bound
 * expressions, and planning the expressions over the output of the aggregation.
 */
module AggregationPlans {
  import opened Types
  import opened Expressions
  import opened RowOperators
  import opened Aggregates
  import opened AggregationTable
  import opened Plans
  import opened SqlOperators

  /** Bound expressions. Unsupported stands for the kinds the planner refuses. */
  datatype Bound =
    | AggCall(funcName: string, isDistinct: bool, args: seq<Bound>)
    | ColumnRef(name: string)
    | Literal(val: Value)
    | BinaryOp(opName: string, larg: Bound, rarg: Bound)
    | Alias(alias: string, child: Bound)
    | Unsupported

  datatype SelectStatement = SelectStatement(groupBy: seq<Bound>, having: Option<Bound>, selectList: seq<Bound>)

  const UNNAMED_COLUMN := "<unnamed>"

  function Decimal(n: nat): string {
    (if n < 10 then "" else Decimal(n / 10)) + [['0', '1', '2', '3', '4', '5', '6', '7', '8', '9'][n % 10]]
  }

  // ----- Phase one: collecting the calls -----

  /** The aggregate calls of an expression: left before right, through aliases, not inside other calls. */
  function Calls(e: Bound): seq<Bound> {
    match e
    case AggCall(_, _, _) => [e]
    case BinaryOp(_, l, r) => Calls(l) + Calls(r)
    case Alias(_, c) => Calls(c)
    case _ => []
  }

  function CallsOfAll(es: seq<Bound>): seq<Bound> {
    if es == [] then [] else CallsOfAll(es[..|es| - 1]) + Calls(es[|es| - 1])
  }

  predicate Supported(e: Bound) {
    match e
    case BinaryOp(_, l, r) => Supported(l) && Supported(r)
    case Alias(_, c) => Supported(c)
    case Unsupported => false
    case _ => true
  }

  /** The expression with its calls replaced by pseudo calls, numbered from `n` on. */
  function Replaced(e: Bound, n: nat): Bound {
    match e
    case AggCall(_, distinct, _) => AggCall("__pseudo_agg#" + Decimal(n), distinct, [])
    case BinaryOp(op, l, r) => BinaryOp(op, Replaced(l, n), Replaced(r, n + |Calls(l)|))
    case Alias(a, c) => Alias(a, Replaced(c, n))
    case _ => e
  }

  // ----- Phase two: planning -----

  datatype Planned = Planned(name: string, expr: Expression, next: nat)

  function CountName(schema: Schema, name: string): nat {
    if schema == [] then 0 else (if schema[0].name == name then 1 else 0) + CountName(schema[1..], name)
  }

  function FirstNamed(schema: Schema, name: string): nat {
    if schema == [] || schema[0].name == name then 0 else 1 + FirstNamed(schema[1..], name)
  }

  lemma {:induction false} NamedOnce(schema: Schema, name: string, i: nat)
    ensures CountName(schema, name) == 0 <==> FirstNamed(schema, name) == |schema|
    ensures FirstNamed(schema, name) <= |schema|
    ensures i < |schema| && schema[i].name == name ==> FirstNamed(schema, name) <= i
    ensures FirstNamed(schema, name) < |schema| ==> schema[FirstNamed(schema, name)].name == name
    ensures i < |schema| && schema[i].name == name && CountName(schema, name) == 1 ==> FirstNamed(schema, name) == i
  {
    if schema != [] {
      NamedOnce(schema[1..], name, if i > 0 then i - 1 else 0);
    }
  }

  /** PlanColumnRef with one child: the column of that name, if there is exactly one. */
  function Lookup(schema: Schema, name: string): Option<nat> {
    if CountName(schema, name) == 1 then Some(FirstNamed(schema, name)) else None
  }

  /** A name is found exactly if it is that of one column and of no other. */
  lemma {:induction false} LookupIff(schema: Schema, name: string, i: nat)
    ensures Lookup(schema, name) == Some(i) <==>
              i < |schema| && schema[i].name == name
              && forall j :: 0 <= j < |schema| && schema[j].name == name ==> j == i
    ensures CountName(schema, name) == 0 <==> forall j :: 0 <= j < |schema| ==> schema[j].name != name
  {
    if schema != [] {
      var rest := schema[1..];
      LookupIff(rest, name, if i > 0 then i - 1 else 0);
      NamedOnce(rest, name, 0);
      NamedOnce(schema, name, i);
      assert forall j :: 1 <= j < |schema| ==> schema[j] == rest[j - 1];
    }
  }

  function PlanColumn(schema: Schema, name: string): Option<Expression> {
    match Lookup(schema, name)
    case Some(i) => NamedOnce(schema, name, i); Some(ColumnValue(0, i, schema[i].ty))
    case None => None
  }

  /** LIKE is not part of the model. */
  function OperatorNamed(name: string): Option<Operator> {
    if name == "=" || name == "==" then Some(Comparison(Equal))
    else if name == "!=" || name == "<>" then Some(Comparison(NotEqual))
    else if name == "<" then Some(Comparison(LessThan))
    else if name == "<=" then Some(Comparison(LessThanOrEqual))
    else if name == ">" then Some(Comparison(GreaterThan))
    else if name == ">=" then Some(Comparison(GreaterThanOrEqual))
    else if name == "+" then Some(Arithmetic(Plus))
    else if name == "-" then Some(Arithmetic(Minus))
    else if name == "and" then Some(Logic(And))
    else if name == "or" then Some(Logic(Or))
    else None
  }

  /** The factory, with the type tests of the constructors of logic and arithmetic expressions. */
  function MakeBinary(name: string, l: Expression, r: Expression): Option<Expression> {
    match OperatorNamed(name)
    case None => None
    case Some(op) =>
      if op.Comparison? || op.Accepts(l.ReturnType(), r.ReturnType()) then Some(Binary(op, l, r)) else None
  }

  /**
   * PlanExpression: an aggregate call, whatever it is, becomes the next entry of `exprs`. None where
   * the planner throws.
   */
  function PlanBound(e: Bound, schema: Schema, exprs: seq<Expression>, next: nat): Option<Planned> {
    match e
    case AggCall(_, _, _) => if next >= |exprs| then None else Some(Planned(UNNAMED_COLUMN, exprs[next], next + 1))
    case ColumnRef(name) =>
      (match PlanColumn(schema, name)
       case Some(c) => Some(Planned(name, c, next))
       case None => None)
    case Literal(v) => Some(Planned(UNNAMED_COLUMN, Constant(v), next))
    case BinaryOp(op, l, r) =>
      (match PlanBound(l, schema, exprs, next)
       case None => None
       case Some(pl) =>
         match PlanBound(r, schema, exprs, pl.next)
         case None => None
         case Some(pr) =>
           match MakeBinary(op, pl.expr, pr.expr)
           case None => None
           case Some(b) => Some(Planned(UNNAMED_COLUMN, b, pr.next)))
    case Alias(a, c) =>
      (match PlanBound(c, schema, exprs, next)
       case None => None
       case Some(p) => Some(p.(name := a)))
    case Unsupported => None
  }

  datatype PlannedList = PlannedList(names: seq<string>, exprs: seq<Expression>, next: nat)

  function PlanAll(es: seq<Bound>, schema: Schema, exprs: seq<Expression>, next: nat): (r: Option<PlannedList>)
    ensures r.Some? ==> |r.value.names| == |r.value.exprs| == |es|
  {
    if es == [] then Some(PlannedList([], [], next))
    else
      match PlanAll(es[..|es| - 1], schema, exprs, next)
      case None => None
      case Some(front) =>
        match PlanBound(es[|es| - 1], schema, exprs, front.next)
        case None => None
        case Some(p) => Some(PlannedList(front.names + [p.name], front.exprs + [p.expr], p.next))
  }

  datatype PlannedCall = PlannedCall(aggType: AggregationType, input: Expression)

  /** PlanAggCall and the factory behind it; the arguments are planned in a context without aggregates. */
  function PlanCall(call: Bound, schema: Schema): Option<PlannedCall>
    requires call.AggCall?
  {
    if call.isDistinct then None
    else
      match PlanAll(call.args, schema, [], 0)
      case None => None
      case Some(args) => CallNamed(call.funcName, args.exprs)
  }

  /** COUNT(*) gets the constant 1 as its input. */
  function CallNamed(name: string, args: seq<Expression>): Option<PlannedCall> {
    if |args| == 0 && name == "count_star" then Some(PlannedCall(CountStarAggregate, Constant(Int(INTEGER, 1))))
    else if |args| != 1 then None
    else if name == "min" then Some(PlannedCall(MinAggregate, args[0]))
    else if name == "max" then Some(PlannedCall(MaxAggregate, args[0]))
    else if name == "sum" then Some(PlannedCall(SumAggregate, args[0]))
    else if name == "count" then Some(PlannedCall(CountAggregate, args[0]))
    else None
  }

  function PlanCalls(calls: seq<Bound>, schema: Schema): (r: Option<seq<PlannedCall>>)
    requires forall c :: c in calls ==> c.AggCall?
    ensures r.Some? ==> |r.value| == |calls|
  {
    if calls == [] then Some([])
    else
      match PlanCalls(calls[..|calls| - 1], schema)
      case None => None
      case Some(front) =>
        match PlanCall(calls[|calls| - 1], schema)
        case None => None
        case Some(c) => Some(front + [c])
  }

  function Inputs(calls: seq<PlannedCall>): (r: seq<Expression>)
    ensures |r| == |calls|
  {
    seq(|calls|, i requires 0 <= i < |calls| => calls[i].input)
  }

  function AggTypes(calls: seq<PlannedCall>): (r: seq<AggregationType>)
    ensures |r| == |calls|
  {
    seq(|calls|, i requires 0 <= i < |calls| => calls[i].aggType)
  }

  /** expr_in_agg_: the column of the aggregation's output in which each call's value is found. */
  function AggColumns(n: nat, count: nat): (r: seq<Expression>)
    ensures |r| == count
  {
    seq(count, i requires 0 <= i < count => ColumnValue(0, n + i, INTEGER))
  }

  /** Group-by columns under their names, then one INTEGER column per call. */
  function AggSchema(names: seq<string>, groupBys: seq<Expression>, count: nat): (r: Schema)
    requires |names| == |groupBys|
    ensures |r| == |groupBys| + count
  {
    seq(|groupBys|, i requires 0 <= i < |groupBys| => Column(names[i], groupBys[i].ReturnType()))
    + seq(count, i requires 0 <= i < count => Column("agg#" + Decimal(i), INTEGER))
  }

  function ProjectionSchema(names: seq<string>, exprs: seq<Expression>): Schema
    requires |names| == |exprs|
  {
    seq(|exprs|, i requires 0 <= i < |exprs| => Column(names[i], exprs[i].ReturnType()))
  }

  /** HAVING first, then the select list. */
  function StatementExpressions(s: SelectStatement): seq<Bound> {
    (if s.having.Some? then [s.having.value] else []) + s.selectList
  }

  predicate AllSupported(es: seq<Bound>) {
    forall e :: e in es ==> Supported(e)
  }

  /** The first phase: group-by expressions and planned calls. */
  datatype PhaseOne = PhaseOne(names: seq<string>, groupBys: seq<Expression>, calls: seq<PlannedCall>)

  lemma {:induction false} CallsAreCalls(e: Bound)
    ensures forall c :: c in Calls(e) ==> c.AggCall?
  {
    match e
    case BinaryOp(_, l, r) => CallsAreCalls(l); CallsAreCalls(r);
    case Alias(_, c) => CallsAreCalls(c);
    case _ =>
  }

  lemma {:induction false} AllCallsAreCalls(es: seq<Bound>)
    ensures forall c :: c in CallsOfAll(es) ==> c.AggCall?
  {
    if es != [] {
      CallsAreCalls(es[|es| - 1]);
      AllCallsAreCalls(es[..|es| - 1]);
    }
  }

  function PlanPhaseOne(s: SelectStatement, schema: Schema): (r: Option<PhaseOne>)
    ensures r.Some? ==> |r.value.names| == |r.value.groupBys| == |s.groupBy|
    ensures r.Some? ==> |r.value.calls| == |CallsOfAll(StatementExpressions(s))|
  {
    AllCallsAreCalls(StatementExpressions(s));
    match PlanAll(s.groupBy, schema, [], 0)
    case None => None
    case Some(keys) =>
      if !AllSupported(StatementExpressions(s)) then None
      else
        match PlanCalls(CallsOfAll(StatementExpressions(s)), schema)
        case None => None
        case Some(calls) => Some(PhaseOne(keys.names, keys.exprs, calls))
  }

  function AggregationOf(one: PhaseOne, child: Plan): Plan
    requires |one.names| == |one.groupBys|
  {
    Unary(AggSchema(one.names, one.groupBys, |one.calls|),
          Aggregation(one.groupBys, Inputs(one.calls), AggTypes(one.calls)), child)
  }

  /** PlanSelectAgg: projection over filter over aggregation. */
  function PlanSelectAgg(s: SelectStatement, child: Plan): Option<Plan> {
    match PlanPhaseOne(s, child.schema)
    case None => None
    case Some(one) =>
      var agg := AggregationOf(one, child);
      match PlanAll(StatementExpressions(s), agg.schema, AggColumns(|one.groupBys|, |one.calls|), 0)
      case None => None
      case Some(two) => Some(PlanPhaseTwo(s, agg, two))
  }

  function PlanPhaseTwo(s: SelectStatement, agg: Plan, two: PlannedList): Plan
    requires |two.names| == |two.exprs| == |StatementExpressions(s)|
  {
    if s.having.Some? then
      Unary(ProjectionSchema(two.names[1..], two.exprs[1..]), Projection(two.exprs[1..]),
            Unary(agg.schema, Filter(two.exprs[0]), agg))
    else
      Unary(ProjectionSchema(two.names, two.exprs), Projection(two.exprs), agg)
  }

  // ----- The two phases meet -----

  /** The pseudo calls are planned like the calls they replace. */
  lemma {:induction false} ReplacementIsInvisible(e: Bound, n: nat, schema: Schema, exprs: seq<Expression>, next: nat)
    ensures PlanBound(Replaced(e, n), schema, exprs, next) == PlanBound(e, schema, exprs, next)
    ensures |Calls(Replaced(e, n))| == |Calls(e)|
  {
    match e
    case BinaryOp(_, l, r) =>
      ReplacementIsInvisible(l, n, schema, exprs, next);
      var pl := PlanBound(l, schema, exprs, next);
      ReplacementIsInvisible(r, n + |Calls(l)|, schema, exprs, if pl.Some? then pl.value.next else 0);
    case Alias(_, c) => ReplacementIsInvisible(c, n, schema, exprs, next);
    case _ =>
  }

  /** The planner takes each name for the operator that it names in SQL, and refuses all others. */
  lemma NamedOperatorMeans(name: string, x: Value, y: Value)
    ensures SqlOperator(name, x, y) == if OperatorNamed(name).Some? then OperatorNamed(name).value.Apply(x, y) else None
  {
    ComparisonMeans(x, y);
    LogicMeans(x, y);
    ArithmeticMeans(x, y);
  }

  /** The value an expression has for a group: its own value for every call, the group's row for every column. */
  function Meaning(e: Bound, schema: Schema, row: Row, valueOf: Bound -> Option<Value>): Option<Value> {
    match e
    case AggCall(_, _, _) => valueOf(e)
    case ColumnRef(name) =>
      (match Lookup(schema, name)
       case Some(i) => if i < |row| then Some(row[i]) else None
       case None => None)
    case Literal(v) => Some(v)
    case BinaryOp(op, l, r) =>
      var x, y := Meaning(l, schema, row, valueOf), Meaning(r, schema, row, valueOf);
      if x.Some? && y.Some? then SqlOperator(op, x.value, y.value) else None
    case Alias(_, c) => Meaning(c, schema, row, valueOf)
    case Unsupported => None
  }

  /** The entries of `exprs` from `next` on yield the values of the calls, in the order in which they are collected. */
  ghost predicate Yields(exprs: seq<Expression>, next: nat, calls: seq<Bound>, row: Row,
                         valueOf: Bound -> Option<Value>) {
    next + |calls| <= |exprs| &&
    forall j :: 0 <= j < |calls| ==> exprs[next + j].Evaluate(row) == valueOf(calls[j])
  }

  lemma YieldsParts(exprs: seq<Expression>, next: nat, a: seq<Bound>, b: seq<Bound>, row: Row,
                    valueOf: Bound -> Option<Value>)
    requires Yields(exprs, next, a + b, row, valueOf)
    ensures Yields(exprs, next, a, row, valueOf) && Yields(exprs, next + |a|, b, row, valueOf)
  {
    forall j | 0 <= j < |a|
      ensures exprs[next + j].Evaluate(row) == valueOf(a[j])
    {
      assert (a + b)[j] == a[j];
    }
    forall j | 0 <= j < |b|
      ensures exprs[next + |a| + j].Evaluate(row) == valueOf(b[j])
    {
      assert (a + b)[|a| + j] == b[j];
    }
  }

  /** Planning consumes one entry per call, in the order in which the calls were collected. */
  lemma {:induction false} PlanningConsumesCalls(e: Bound, schema: Schema, exprs: seq<Expression>, next: nat)
    requires PlanBound(e, schema, exprs, next).Some?
    ensures PlanBound(e, schema, exprs, next).value.next == next + |Calls(e)|
    ensures Calls(e) != [] ==> next + |Calls(e)| <= |exprs|
  {
    match e
    case BinaryOp(_, l, r) =>
      PlanningConsumesCalls(l, schema, exprs, next);
      PlanningConsumesCalls(r, schema, exprs, PlanBound(l, schema, exprs, next).value.next);
    case Alias(_, c) => PlanningConsumesCalls(c, schema, exprs, next);
    case _ =>
  }

  /** Without aggregate columns no list with a call can be planned, and nothing is consumed. */
  lemma {:induction false} NothingCollected(es: seq<Bound>, schema: Schema)
    requires PlanAll(es, schema, [], 0).Some?
    ensures CallsOfAll(es) == [] && PlanAll(es, schema, [], 0).value.next == 0
  {
    if es != [] {
      NothingCollected(es[..|es| - 1], schema);
      PlanningConsumesCalls(es[|es| - 1], schema, [], 0);
    }
  }

  /** The planned expression has the meaning of the original on the row of the group. */
  lemma {:induction false} PlannedMeansOriginal(e: Bound, schema: Schema, exprs: seq<Expression>, next: nat, row: Row,
                                                valueOf: Bound -> Option<Value>)
    requires PlanBound(e, schema, exprs, next).Some? && Yields(exprs, next, Calls(e), row, valueOf)
    ensures PlanBound(e, schema, exprs, next).value.expr.Evaluate(row) == Meaning(e, schema, row, valueOf)
  {
    match e
    case AggCall(_, _, _) =>
      assert exprs[next + 0].Evaluate(row) == valueOf(Calls(e)[0]);
    case BinaryOp(op, l, r) =>
      YieldsParts(exprs, next, Calls(l), Calls(r), row, valueOf);
      PlanningConsumesCalls(l, schema, exprs, next);
      PlannedMeansOriginal(l, schema, exprs, next, row, valueOf);
      PlannedMeansOriginal(r, schema, exprs, next + |Calls(l)|, row, valueOf);
      var x, y := Meaning(l, schema, row, valueOf), Meaning(r, schema, row, valueOf);
      if x.Some? && y.Some? {
        NamedOperatorMeans(op, x.value, y.value);
      }
    case Alias(_, c) => PlannedMeansOriginal(c, schema, exprs, next, row, valueOf);
    case _ =>
  }
}
