/** Building an executor tree for a plan, running it, and the optimizer in front of it. */
module ExecutionEngine {
  import opened Types
  import opened Expressions
  import opened Plans
  import opened PlanTyping
  import opened Executors
  import opened Optimizer
  import OptimizerProofs
  import OptimizerFailures

  method CreateUnary(db: Database, plan: Plan, child: Executor) returns (e: Executor)
    requires plan.Unary? && child.Shape() && child.PlanOf() == plan.child && child.DatabaseOf() == db && child.Fresh()
    ensures e.Shape() && e.PlanOf() == plan && e.DatabaseOf() == db && e.Fresh() && fresh(e.Repr() - child.Repr())
  {
    match plan.op {
      case Filter(_) =>
        var x := new FilterExecutor(db, plan, child);
        e := FilterExec(x);
      case Projection(_) =>
        var x := new ProjectionExecutor(db, plan, child);
        e := ProjectionExec(x);
      case Aggregation(_, _, _) =>
        var x := new AggregationExecutor(db, plan, child);
        e := AggregationExec(x);
      case Sort(_) =>
        var x := new SortExecutor(db, plan, child);
        e := SortExec(x);
      case Limit(_) =>
        var x := new LimitExecutor(db, plan, child);
        e := LimitExec(x);
      case TopN(_, _) =>
        var x := new TopNExecutor(db, plan, child);
        e := TopNExec(x);
    }
  }

  method CreateJoin(db: Database, plan: Plan, left: Executor, right: Executor) returns (e: Executor)
    requires plan.Join? && left.Repr() !! right.Repr()
    requires left.Shape() && left.PlanOf() == plan.left && left.DatabaseOf() == db && left.Fresh()
    requires right.Shape() && right.PlanOf() == plan.right && right.DatabaseOf() == db && right.Fresh()
    ensures e.Shape() && e.PlanOf() == plan && e.DatabaseOf() == db && e.Fresh()
    ensures fresh(e.Repr() - left.Repr() - right.Repr())
  {
    if plan.joinOp.NestedLoopJoin? {
      var x := new NestedLoopJoinExecutor(db, plan, left, right);
      e := NestedLoopExec(x);
    } else {
      var x := new HashJoinExecutor(db, plan, left, right);
      e := HashJoinExec(x);
    }
  }

  /** ExecutorFactory::CreateExecutor: a tree of new executors in the shape of the plan. */
  method CreateExecutor(db: Database, plan: Plan) returns (e: Executor)
    ensures e.Shape() && e.PlanOf() == plan && e.DatabaseOf() == db && e.Fresh() && fresh(e.Repr())
    decreases plan
  {
    match plan {
      case Leaf(_, SeqScan(_, _)) =>
        var x := new SeqScanExecutor(db, plan);
        e := ScanExec(x);
      case Leaf(_, Values(_)) =>
        var x := new ValuesExecutor(db, plan);
        e := ValuesExec(x);
      case Unary(_, _, childPlan) =>
        var child := CreateExecutor(db, childPlan);
        e := CreateUnary(db, plan, child);
      case Join(_, _, leftPlan, rightPlan) =>
        var left := CreateExecutor(db, leftPlan);
        var right := CreateExecutor(db, rightPlan);
        assert left.Fresh();
        e := CreateJoin(db, plan, left, right);
    }
  }

  /** Runs a plan to the end. The rows it yields, or the exception, are an outcome the plan allows. */
  method Execute(db: Database, plan: Plan) returns (result: Option<seq<Row>>)
    requires Initialisable(db, plan)
    ensures result.Some? ==> Allowed(db, plan, Rows(result.value))
    ensures result.None? ==> Allowed(db, plan, Throws)
  {
    var executor := CreateExecutor(db, plan);
    var ok := executor.Init();
    if !ok {
      return None;
    }
    var rows := Drain(executor);
    return Some(rows);
  }

  /**
   * Optimizing a plan and executing what comes out ends as executing the plan itself may end: with rows
   * of the types its schema declares, or with an exception. The plan executed may yield all the rows the
   * original may yield. The optimizer adds an exception of its own exactly if some filter makes it throw.
   */
  method RunOptimized(db: Database, plan: Plan) returns (result: Option<seq<Row>>)
    requires Initialisable(db, plan) && RulesApply(db, plan)
    ensures result.Some? ==> Allowed(db, plan, Rows(result.value)) && RowsHaveTypes(result.value, plan.Types())
    ensures OptimizerFailures.OptimizingThrows(0, plan) <==> OptimizeCustom(plan).None?
    ensures OptimizeCustom(plan).None? ==> result.None?
    ensures OptimizeCustom(plan).Some? ==>
              forall rows :: Allowed(db, OptimizeCustom(plan).value, Rows(rows)) <==> Allowed(db, plan, Rows(rows))
    ensures result.None? ==> OptimizerFailures.OptimizingThrows(0, plan) || Allowed(db, plan, Throws)
  {
    var optimized := OptimizeCustom(plan);
    OptimizerFailures.OptimizerThrowsIff(plan);
    if optimized.None? {
      return None;
    }
    OptimizerProofs.OptimizerIsSound(db, plan);
    result := Execute(db, optimized.value);
    if result.Some? {
      OutcomesAreTyped(db, plan, Rows(result.value));
    }
  }
}
