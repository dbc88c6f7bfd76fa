/**
 * The optimizer's rewrite rules. Every rule optimizes the children first and then looks at the root
 * once; the rules only differ in what they do at the root.
 */
module Optimizer {
  import opened Types
  import opened Expressions
  import opened RowOperators
  import opened Plans

  /** The modelled rules, in the order in which OptimizeCustom applies them. */
  datatype Rule =
    | MergeProjection | MergeFilterScan | MergeFilterNLJ | FalseFilter | NLJAsHashJoin | SortLimitAsTopN

  // ----- Tests on expressions -----

  /** Whether the expression is a constant that reads as true, NULL or not; None where casting it to BOOLEAN throws. */
  function IsPredicateTrue(e: Expression): Option<bool> {
    if !e.Constant? then Some(false)
    else
      match CastToBoolean(e.val)
      case Some(v) => Some(v.GetAsBool())
      case None => None
  }

  predicate IsConstantEquality(e: Expression) {
    e.Binary? && e.op == Comparison(Equal) && e.left.Constant? && e.right.Constant?
  }

  /** Whether two constants are compared that differ as integers; None where casting one of them throws. */
  function IsPredicateFalse(e: Expression): Option<bool> {
    if !IsConstantEquality(e) then Some(false)
    else
      var l, r := CastToInteger(e.left.val), CastToInteger(e.right.val);
      if l.Some? && r.Some? then Some(l.value != r.value) else None
  }

  /** An equality of a column of one side with a column of the other side. */
  predicate IsColumnEquality(e: Expression) {
    && e.Binary? && e.op == Comparison(Equal) && e.left.ColumnValue? && e.right.ColumnValue?
    && ((e.left.tupleIdx == 0 && e.right.tupleIdx == 1) || (e.left.tupleIdx == 1 && e.right.tupleIdx == 0))
  }

  /** The projection hands through exactly the columns of its child, under whatever names. */
  predicate IsIdentity(exprs: seq<Expression>, types: seq<TypeId>, childTypes: seq<TypeId>) {
    && types == childTypes
    && forall i :: 0 <= i < |exprs| ==> exprs[i].ColumnValue? && exprs[i].tupleIdx == 0 && exprs[i].colIdx == i
  }

  // ----- The rules at the root -----

  function MergeProjectionAtRoot(p: Plan): Plan {
    if p.Unary? && p.op.Projection? && IsIdentity(p.op.expressions, p.Types(), p.child.Types())
    then p.child.(schema := p.schema)
    else p
  }

  function MergeFilterScanAtRoot(p: Plan): Plan {
    if p.Unary? && p.op.Filter? && p.child.Leaf? && p.child.leafOp.SeqScan? && p.child.leafOp.filterPredicate.None?
    then Leaf(p.schema, SeqScan(p.child.leafOp.tableOid, Some(p.op.pred)))
    else p
  }

  /** The join type is taken over unchecked. None where the test or the rewrite of the predicate throws. */
  function MergeFilterNLJAtRoot(p: Plan): Option<Plan> {
    if p.Unary? && p.op.Filter? && p.child.Join? && p.child.joinOp.NestedLoopJoin? then
      match IsPredicateTrue(p.child.joinOp.pred)
      case None => None
      case Some(always) => if always then MergedJoin(p) else Some(p)
    else Some(p)
  }

  function MergedJoin(p: Plan): Option<Plan>
    requires p.Unary? && p.op.Filter? && p.child.Join? && p.child.joinOp.NestedLoopJoin?
  {
    match RewriteForJoin(p.op.pred, |p.child.left.schema|, |p.child.right.schema|)
    case Some(e) => Some(Join(p.schema, NestedLoopJoin(e, p.child.joinOp.joinType), p.child.left, p.child.right))
    case None => None
  }

  /** The filter's own schema is dropped with it. None where the test throws. */
  function FalseFilterAtRoot(p: Plan): Option<Plan> {
    if p.Unary? && p.op.Filter? then
      match IsPredicateFalse(p.op.pred)
      case None => None
      case Some(never) => Some(if never then Leaf(p.child.schema, Values([])) else p)
    else Some(p)
  }

  function NLJAsHashJoinAtRoot(p: Plan): Plan {
    if p.Join? && p.joinOp.NestedLoopJoin? && IsColumnEquality(p.joinOp.pred) then
      var l, r := p.joinOp.pred.left, p.joinOp.pred.right;
      var leftExpr, rightExpr := ColumnValue(0, l.colIdx, l.retType), ColumnValue(0, r.colIdx, r.retType);
      var op := if l.tupleIdx == 0 then HashJoin(leftExpr, rightExpr, p.joinOp.joinType)
                else HashJoin(rightExpr, leftExpr, p.joinOp.joinType);
      Join(p.schema, op, p.left, p.right)
    else p
  }

  function SortLimitAsTopNAtRoot(p: Plan): Plan {
    if p.Unary? && p.op.Limit? && p.child.Unary? && p.child.op.Sort?
    then Unary(p.schema, TopN(p.child.op.orderBys, p.op.limit), p.child.child)
    else p
  }

  function AtRoot(rule: Rule, p: Plan): Option<Plan> {
    match rule
    case MergeProjection => Some(MergeProjectionAtRoot(p))
    case MergeFilterScan => Some(MergeFilterScanAtRoot(p))
    case MergeFilterNLJ => MergeFilterNLJAtRoot(p)
    case FalseFilter => FalseFilterAtRoot(p)
    case NLJAsHashJoin => Some(NLJAsHashJoinAtRoot(p))
    case SortLimitAsTopN => Some(SortLimitAsTopNAtRoot(p))
  }

  /** One rule on a whole plan, children first; None where it throws. */
  function Optimize(rule: Rule, p: Plan): Option<Plan> {
    match p
    case Leaf(_, _) => AtRoot(rule, p)
    case Unary(_, _, child) =>
      (match Optimize(rule, child)
       case Some(c) => AtRoot(rule, p.(child := c))
       case None => None)
    case Join(_, _, left, right) =>
      var l, r := Optimize(rule, left), Optimize(rule, right);
      if l.Some? && r.Some? then AtRoot(rule, p.(left := l.value, right := r.value)) else None
  }

  function OptimizeAll(rules: seq<Rule>, p: Plan): Option<Plan> {
    if rules == [] then Some(p)
    else
      match Optimize(rules[0], p)
      case Some(q) => OptimizeAll(rules[1..], q)
      case None => None
  }

  const CUSTOM_RULES := [MergeProjection, MergeFilterScan, MergeFilterNLJ, FalseFilter, NLJAsHashJoin, SortLimitAsTopN]

  /** OptimizeCustom, restricted to the modelled rules. */
  function OptimizeCustom(p: Plan): Option<Plan> {
    OptimizeAll(CUSTOM_RULES, p)
  }

  // ----- What the rules need of a plan -----

  /** The join predicate as an equality of a left and a right column. */
  function EquiJoinOf(pred: Expression): (e: EquiJoin)
    requires IsColumnEquality(pred)
    ensures e.Predicate() == pred
  {
    if pred.left.tupleIdx == 0 then
      EquiJoin(pred.left.colIdx, pred.left.retType, pred.right.colIdx, pred.right.retType, false)
    else
      EquiJoin(pred.right.colIdx, pred.right.retType, pred.left.colIdx, pred.left.retType, true)
  }

  /** Whatever rows the children yield, no left row of a left join on a column equality is dropped by hashing. */
  ghost predicate HashedLeftJoinOk(db: Database, op: JoinOp, left: Plan, right: Plan) {
    op.NestedLoopJoin? && op.joinType == LEFT && IsColumnEquality(op.pred) ==>
      forall l, r :: Allowed(db, left, Rows(l)) && Allowed(db, right, Rows(r)) ==>
                       EquiJoinOf(op.pred).Spec(db.hash, LEFT, right.Types()).BucketsCover(l, r)
  }

  /** A nested loop join that a filter above it is merged into. */
  predicate IsTrueJoin(p: Plan) {
    p.Join? && p.joinOp.NestedLoopJoin? && IsPredicateTrue(p.joinOp.pred) == Some(true)
  }

  /** A filter merged into such a join, unless its predicate cannot be rewritten. */
  function FilteredJoin(filter: Plan, join: Plan): Plan
    requires filter.Unary? && filter.op.Filter? && IsTrueJoin(join)
  {
    match RewriteForJoin(filter.op.pred, |join.left.schema|, |join.right.schema|)
    case Some(e) => Join(filter.schema, NestedLoopJoin(e, join.joinOp.joinType), join.left, join.right)
    case None => filter
  }

  /** What a filter above the plan finds once the projections have been removed and the filters below merged. */
  function Core(p: Plan): Plan
    decreases p
  {
    if p.Unary? && p.op.Projection? && IsIdentity(p.op.expressions, p.Types(), p.child.Types()) then Core(p.child)
    else if p.Unary? && p.op.Filter? && IsTrueJoin(Core(p.child)) then FilteredJoin(p, Core(p.child))
    else p
  }

  /** A filter that ends up in a scan yields no NULL that reads as true on the table's rows. */
  predicate ScanFilterOk(db: Database, pred: Expression, below: Plan) {
    && below.Leaf? && below.leafOp.SeqScan? && below.leafOp.filterPredicate.None?
    && below.leafOp.tableOid < |db.tables| ==>
      forall r :: r in db.tables[below.leafOp.tableOid].rows ==> !ReadsNullAsTrue(pred, r)
  }

  /** Whatever rows the children yield, merging the filter into their join agrees with it on every left row. */
  ghost predicate MergeAgreesOn(db: Database, pred: Expression, join: Plan)
    requires IsTrueJoin(join)
  {
    forall l, r :: Allowed(db, join.left, Rows(l)) && Allowed(db, join.right, Rows(r)) ==>
                     MergeAgreesAll(pred, join.joinOp.pred, join.joinOp.joinType, join.right.Types(), l, r)
  }

  /** A filter that ends up in a join agrees with the merged join, which can be hashed if it comes to that. */
  ghost predicate JoinFilterOk(db: Database, filter: Plan, below: Plan)
    requires filter.Unary? && filter.op.Filter?
  {
    IsTrueJoin(below) ==>
      && MergeAgreesOn(db, filter.op.pred, below)
      && var q := FilteredJoin(filter, below); q.Join? ==> HashedLeftJoinOk(db, q.joinOp, q.left, q.right)
  }

  /** A filter that is dropped together with its child has a child that may yield rows. */
  ghost predicate DroppedOk(db: Database, pred: Expression, child: Plan) {
    IsPredicateFalse(pred) == Some(true) ==> exists rows :: Allowed(db, child, Rows(rows))
  }

  ghost predicate FilterOk(db: Database, filter: Plan)
    requires filter.Unary? && filter.op.Filter?
  {
    && ScanFilterOk(db, filter.op.pred, Core(filter.child))
    && JoinFilterOk(db, filter, Core(filter.child))
    && DroppedOk(db, filter.op.pred, filter.child)
  }

  ghost predicate RulesApply(db: Database, p: Plan) {
    match p
    case Leaf(_, _) => true
    case Unary(_, op, child) => RulesApply(db, child) && (op.Filter? ==> FilterOk(db, p))
    case Join(_, op, left, right) =>
      RulesApply(db, left) && RulesApply(db, right) && HashedLeftJoinOk(db, op, left, right)
  }
}
