/** The planner's methods for grouped queries, which work through a context they update. */
module AggregationPlanner {
  import opened Types
  import opened Expressions
  import opened Aggregates
  import opened Plans
  import opened AggregationPlans

  /** The statement's expressions after the first phase, each call replaced by a pseudo call. */
  function ReplacedAll(es: seq<Bound>): (r: seq<Bound>)
    ensures |r| == |es|
  {
    if es == [] then []
    else ReplacedAll(es[..|es| - 1]) + [Replaced(es[|es| - 1], |CallsOfAll(es[..|es| - 1])|)]
  }

  /** Planning the rewritten expressions is planning the originals. */
  lemma {:induction false} PlanReplacedAll(es: seq<Bound>, schema: Schema, exprs: seq<Expression>, next: nat)
    ensures PlanAll(ReplacedAll(es), schema, exprs, next) == PlanAll(es, schema, exprs, next)
  {
    if es != [] {
      var front, last := es[..|es| - 1], es[|es| - 1];
      assert ReplacedAll(es)[..|es| - 1] == ReplacedAll(front);
      PlanReplacedAll(front, schema, exprs, next);
      var p := PlanAll(front, schema, exprs, next);
      if p.Some? {
        ReplacementIsInvisible(last, |CallsOfAll(front)|, schema, exprs, p.value.next);
      }
    }
  }

  /** What planning one more expression adds. */
  lemma PlanAllStep(es: seq<Bound>, i: nat, schema: Schema, exprs: seq<Expression>, next: nat)
    requires i < |es|
    ensures PlanAll(es[..i + 1], schema, exprs, next) ==
            match PlanAll(es[..i], schema, exprs, next)
            case None => None
            case Some(front) =>
              match PlanBound(es[i], schema, exprs, front.next)
              case None => None
              case Some(p) => Some(PlannedList(front.names + [p.name], front.exprs + [p.expr], p.next))
  {
    assert es[..i + 1][..i] == es[..i];
  }

  /** What collecting the calls of one more expression adds. */
  lemma CollectStep(es: seq<Bound>, i: nat)
    requires i < |es|
    ensures ReplacedAll(es[..i + 1]) == ReplacedAll(es[..i]) + [Replaced(es[i], |CallsOfAll(es[..i])|)]
    ensures CallsOfAll(es[..i + 1]) == CallsOfAll(es[..i]) + Calls(es[i])
    ensures AllSupported(es) ==> Supported(es[i])
  {
    assert es[..i + 1][..i] == es[..i];
  }

  lemma {:induction false} PlanAllFailsEarly(es: seq<Bound>, i: nat, schema: Schema, exprs: seq<Expression>, next: nat)
    requires i <= |es| && PlanAll(es[..i], schema, exprs, next).None?
    ensures PlanAll(es, schema, exprs, next).None?
    decreases |es| - i
  {
    if i == |es| {
      assert es[..i] == es;
    } else {
      PlanAllStep(es, i, schema, exprs, next);
      PlanAllFailsEarly(es, i + 1, schema, exprs, next);
    }
  }

  lemma {:induction false} PlanCallsFailEarly(calls: seq<Bound>, i: nat, schema: Schema)
    requires (forall c :: c in calls ==> c.AggCall?) && i <= |calls| && PlanCalls(calls[..i], schema).None?
    ensures PlanCalls(calls, schema).None?
    decreases |calls| - i
  {
    if i == |calls| {
      assert calls[..i] == calls;
    } else {
      assert calls[..i + 1][..i] == calls[..i];
      PlanCallsFailEarly(calls, i + 1, schema);
    }
  }

  class Planner {
    var allowAggregation: bool
    var nextAggregation: nat
    var aggregations: seq<Bound>
    var exprInAgg: seq<Expression>

    constructor ()
      ensures nextAggregation == 0 && aggregations == [] && exprInAgg == []
    {
      allowAggregation, nextAggregation, aggregations, exprInAgg := false, 0, [], [];
    }

    /** Collects the calls of the expression and returns it with pseudo calls in their place; None where it throws. */
    method AddAggCallToContext(expr: Bound) returns (rewritten: Option<Bound>)
      modifies `aggregations
      ensures rewritten == if Supported(expr) then Some(Replaced(expr, |old(aggregations)|)) else None
      ensures Supported(expr) ==> aggregations == old(aggregations) + Calls(expr)
      decreases expr
    {
      match expr {
        case AggCall(_, distinct, _) =>
          rewritten := Some(AggCall("__pseudo_agg#" + Decimal(|aggregations|), distinct, []));
          aggregations := aggregations + [expr];
        case ColumnRef(_) => rewritten := Some(expr);
        case BinaryOp(op, larg, rarg) =>
          var before := aggregations;
          var l := AddAggCallToContext(larg);
          if l.None? {
            return None;
          }
          var r := AddAggCallToContext(rarg);
          if r.None? {
            return None;
          }
          assert aggregations == before + (Calls(larg) + Calls(rarg));
          rewritten := Some(BinaryOp(op, l.value, r.value));
        case Literal(_) => rewritten := Some(expr);
        case Alias(a, child) =>
          var c := AddAggCallToContext(child);
          rewritten := if c.Some? then Some(Alias(a, c.value)) else None;
        case Unsupported => rewritten := None;
      }
    }

    /** The column of that name, if there is exactly one; None where it throws. */
    method PlanColumnRef(name: string, schema: Schema) returns (column: Option<Expression>)
      ensures column == PlanColumn(schema, name)
    {
      var found, colIdx := false, 0;
      var i := |schema|;
      assert schema[i..] == [];
      while i > 0
        invariant 0 <= i <= |schema|
        invariant found == (CountName(schema[i..], name) == 1) && CountName(schema[i..], name) <= 1
        invariant found ==> colIdx == i + FirstNamed(schema[i..], name) && colIdx < |schema|
      {
        i := i - 1;
        assert schema[i..][1..] == schema[i + 1..];
        NamedOnce(schema[i + 1..], name, 0);
        if schema[i].name == name {
          if found {
            NamedMore(schema, i, name);
            return None;
          }
          found, colIdx := true, i;
        }
      }
      assert schema[0..] == schema;
      column := if found then Some(ColumnValue(0, colIdx, schema[colIdx].ty)) else None;
    }

    /** Plans an expression over rows of the schema; None where it throws. */
    method PlanExpression(expr: Bound, schema: Schema) returns (r: Option<(string, Expression)>)
      modifies `nextAggregation
      ensures var p := PlanBound(expr, schema, exprInAgg, old(nextAggregation));
              if p.Some? then r == Some((p.value.name, p.value.expr)) && nextAggregation == p.value.next else r == None
      decreases expr
    {
      match expr {
        case AggCall(_, _, _) =>
          if nextAggregation >= |exprInAgg| {
            return None;
          }
          r := Some((UNNAMED_COLUMN, exprInAgg[nextAggregation]));
          nextAggregation := nextAggregation + 1;
        case ColumnRef(name) =>
          var column := PlanColumnRef(name, schema);
          r := if column.Some? then Some((name, column.value)) else None;
        case BinaryOp(op, larg, rarg) =>
          var left := PlanExpression(larg, schema);
          if left.None? {
            return None;
          }
          var right := PlanExpression(rarg, schema);
          if right.None? {
            return None;
          }
          var b := MakeBinary(op, left.value.1, right.value.1);
          r := if b.Some? then Some((UNNAMED_COLUMN, b.value)) else None;
        case Literal(v) => r := Some((UNNAMED_COLUMN, Constant(v)));
        case Alias(a, child) =>
          var c := PlanExpression(child, schema);
          r := if c.Some? then Some((a, c.value.1)) else None;
        case Unsupported => r := None;
      }
    }

    /** The loops that plan a list of expressions in the current context. */
    method PlanList(es: seq<Bound>, schema: Schema) returns (r: Option<(seq<string>, seq<Expression>)>)
      modifies `nextAggregation
      ensures var p := PlanAll(es, schema, exprInAgg, old(nextAggregation));
              if p.Some? then r == Some((p.value.names, p.value.exprs)) && nextAggregation == p.value.next
              else r == None
    {
      var names, exprs := [], [];
      ghost var start := nextAggregation;
      for i := 0 to |es|
        invariant PlanAll(es[..i], schema, exprInAgg, start) == Some(PlannedList(names, exprs, nextAggregation))
      {
        PlanAllStep(es, i, schema, exprInAgg, start);
        var p := PlanExpression(es[i], schema);
        if p.None? {
          PlanAllFailsEarly(es, i + 1, schema, exprInAgg, start);
          return None;
        }
        names, exprs := names + [p.value.0], exprs + [p.value.1];
      }
      assert es[..|es|] == es;
      r := Some((names, exprs));
    }

    /** Plans a call's arguments in a new context, so that no call is allowed inside; None where it throws. */
    method PlanAggCall(call: Bound, schema: Schema) returns (r: Option<PlannedCall>)
      requires call.AggCall?
      modifies this
      ensures r == PlanCall(call, schema)
      ensures allowAggregation == old(allowAggregation) && nextAggregation == old(nextAggregation)
      ensures aggregations == old(aggregations) && exprInAgg == old(exprInAgg)
    {
      if call.isDistinct {
        return None;
      }
      var allow, next, calls, exprs := allowAggregation, nextAggregation, aggregations, exprInAgg;
      allowAggregation, nextAggregation, aggregations, exprInAgg := false, 0, [], [];
      var args := PlanList(call.args, schema);
      allowAggregation, nextAggregation, aggregations, exprInAgg := allow, next, calls, exprs;
      r := if args.Some? then CallNamed(call.funcName, args.value.1) else None;
    }

    /** The first phase for HAVING and the select list: collects their calls and rewrites them; None where it throws. */
    method CollectCalls(es: seq<Bound>) returns (rewritten: Option<seq<Bound>>)
      requires aggregations == []
      modifies `aggregations
      ensures rewritten == if AllSupported(es) then Some(ReplacedAll(es)) else None
      ensures AllSupported(es) ==> aggregations == CallsOfAll(es)
    {
      var items := [];
      for i := 0 to |es|
        invariant items == ReplacedAll(es[..i]) && aggregations == CallsOfAll(es[..i])
        invariant forall j :: 0 <= j < i ==> Supported(es[j])
      {
        CollectStep(es, i);
        var item := AddAggCallToContext(es[i]);
        if item.None? {
          return None;
        }
        items := items + [item.value];
      }
      assert es[..|es|] == es;
      rewritten := Some(items);
    }

    /** Plans every collected call and prepares the column that will stand for it; None where it throws. */
    method PlanCollected(schema: Schema, aggBeginIdx: nat) returns (r: Option<seq<PlannedCall>>)
      requires (forall c :: c in aggregations ==> c.AggCall?) && exprInAgg == []
      modifies this
      ensures aggregations == old(aggregations) && r == PlanCalls(aggregations, schema)
      ensures allowAggregation == old(allowAggregation) && nextAggregation == old(nextAggregation)
      ensures r.Some? ==> exprInAgg == AggColumns(aggBeginIdx, |aggregations|)
    {
      var calls: seq<PlannedCall> := [];
      var termIdx := 0;
      while termIdx < |aggregations|
        invariant 0 <= termIdx <= |aggregations| && aggregations == old(aggregations)
        invariant allowAggregation == old(allowAggregation) && nextAggregation == old(nextAggregation)
        invariant PlanCalls(aggregations[..termIdx], schema) == Some(calls)
        invariant exprInAgg == AggColumns(aggBeginIdx, termIdx)
      {
        assert aggregations[..termIdx + 1][..termIdx] == aggregations[..termIdx];
        assert aggregations[termIdx] in aggregations;
        var call := PlanAggCall(aggregations[termIdx], schema);
        if call.None? {
          PlanCallsFailEarly(aggregations, termIdx + 1, schema);
          return None;
        }
        calls := calls + [call.value];
        exprInAgg := exprInAgg + [ColumnValue(0, aggBeginIdx + termIdx, INTEGER)];
        termIdx := termIdx + 1;
      }
      assert aggregations[..termIdx] == aggregations;
      r := Some(calls);
    }

    /** Plans a grouped query over its child; None where it throws. The context is a new one, dropped at the end. */
    method PlanSelectAgg(s: SelectStatement, child: Plan) returns (plan: Option<Plan>)
      modifies this
      ensures plan == AggregationPlans.PlanSelectAgg(s, child)
      ensures allowAggregation == old(allowAggregation) && nextAggregation == old(nextAggregation)
      ensures aggregations == old(aggregations) && exprInAgg == old(exprInAgg)
    {
      var allow, next, calls, exprs := allowAggregation, nextAggregation, aggregations, exprInAgg;
      allowAggregation, nextAggregation, aggregations, exprInAgg := true, 0, [], [];
      var one, items := PlanFirstPhase(s, child.schema);
      plan := None;
      if one.Some? {
        var agg := AggregationOf(one.value, child);
        var two := PlanList(items, agg.schema);
        PlanReplacedAll(StatementExpressions(s), agg.schema, exprInAgg, 0);
        if two.Some? {
          plan := Some(PlanPhaseTwo(s, agg, PlannedList(two.value.0, two.value.1, nextAggregation)));
        }
      }
      allowAggregation, nextAggregation, aggregations, exprInAgg := allow, next, calls, exprs;
    }

    /** Group-by expressions, then the calls of HAVING and the select list; the rewritten ones are for phase two. */
    method PlanFirstPhase(s: SelectStatement, schema: Schema) returns (one: Option<PhaseOne>, items: seq<Bound>)
      requires nextAggregation == 0 && aggregations == [] && exprInAgg == []
      modifies this
      ensures one == PlanPhaseOne(s, schema)
      ensures one.Some? ==> nextAggregation == 0 && items == ReplacedAll(StatementExpressions(s))
                            && exprInAgg == AggColumns(|one.value.groupBys|, |one.value.calls|)
    {
      one, items := None, [];
      var groupBys := PlanList(s.groupBy, schema);
      if groupBys.None? {
        return;
      }
      NothingCollected(s.groupBy, schema);
      var rewritten := CollectCalls(StatementExpressions(s));
      if rewritten.None? {
        return;
      }
      AllCallsAreCalls(StatementExpressions(s));
      var calls := PlanCollected(schema, |groupBys.value.1|);
      if calls.None? {
        return;
      }
      one := Some(PhaseOne(groupBys.value.0, groupBys.value.1, calls.value));
      items := rewritten.value;
    }
  }

  lemma {:induction false} NamedMore(schema: Schema, i: nat, name: string)
    requires i < |schema| && schema[i].name == name && CountName(schema[i + 1..], name) >= 1
    ensures CountName(schema, name) >= 2
  {
    if i == 0 {
    } else {
      assert schema[1..][i..] == schema[i + 1..] || i > |schema| - 1;
      assert schema[1..][i - 1 + 1..] == schema[i + 1..];
      NamedMore(schema[1..], i - 1, name);
    }
  }
}
