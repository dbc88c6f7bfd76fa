/** A grouped query from the statement to its rows: planned, optimized and executed. */
module QueryExecution {
  import opened Types
  import opened RowOperators
  import opened Expressions
  import opened Plans
  import opened Executors
  import opened Optimizer
  import opened AggregationPlans
  import opened AggregationMeaning
  import opened GroupedQueries
  import opened StatementTyping
  import AggregationPlanner
  import ExecutionEngine
  import OptimizerFailures

  /** What planning, optimizing and executing a grouped query needs of the statement and the child. */
  ghost predicate QueryApplies(db: Database, s: SelectStatement, child: Plan)
    requires PlanSelectAgg(s, child).Some?
  {
    && StatementTyped(s, child) && RulesApply(db, PlanSelectAgg(s, child).value)
    && forall rows :: Allowed(db, child, Rows(rows)) ==> !FailsOn(Query(s, child, rows), Undefined)
  }

  lemma PlannedQueryIsInitialisable(db: Database, s: SelectStatement, child: Plan)
    requires Initialisable(db, child) && PlanSelectAgg(s, child).Some? && QueryApplies(db, s, child)
    ensures Initialisable(db, PlanSelectAgg(s, child).value)
  {
    PlanIsWellFormedIff(db, s, child);
    QueryFailsIff(db, s, child, Undefined);
  }

  /**
   * A grouped query planned in two phases, optimized and executed: the rows are the result the statement asks
   * for. It only ends in an exception if planning or optimizing throws, if the child may, or if some call has
   * no value for a group.
   */
  method RunGroupedQuery(db: Database, s: SelectStatement, child: Plan)
    returns (result: Option<seq<Row>>, ghost q: Query, ghost order: seq<Row>)
    requires Initialisable(db, child) && (PlanSelectAgg(s, child).Some? ==> QueryApplies(db, s, child))
    ensures result.Some? ==> q.statement == s && q.child == child && IsResult(db, q, order, result.value)
    ensures result.None? ==>
              || PlanSelectAgg(s, child).None? || OptimizerFailures.OptimizingThrows(0, PlanSelectAgg(s, child).value)
              || Allowed(db, child, Throws)
              || exists rows :: Allowed(db, child, Rows(rows)) && FailsOn(Query(s, child, rows), Throws)
  {
    q, order := Query(s, child, []), [];
    var planner := new AggregationPlanner.Planner();
    var plan := planner.PlanSelectAgg(s, child);
    if plan.None? {
      return None, q, order;
    }
    PlannedQueryIsInitialisable(db, s, child);
    result := ExecutionEngine.RunOptimized(db, plan.value);
    if result.Some? {
      q, order := QueryYieldsResult(db, s, child, result.value);
    } else {
      QueryFailsIff(db, s, child, Throws);
    }
  }
}
