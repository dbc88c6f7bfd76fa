/**
 * The pull-based executors, one class per operator. An executor is initialised once and then hands
 * out one row per call of Next. Its ghost field `pending` holds the rows it still has to hand out;
 * Ready ties it to the state the code keeps.
 */
module Executors {
  import opened Types
  import opened Expressions
  import opened Ordering
  import opened RowOperators
  import opened Aggregates
  import opened AggregationTable
  import opened Plans
  import opened PlanTyping
  import opened ExecutorStates
  import opened ExecutorLoops
  import opened AggregationHashTable

  /** An executor of any kind: AbstractExecutor, with its virtual functions as dispatch over the kinds. */
  datatype Executor =
    | ScanExec(scan: SeqScanExecutor)
    | FilterExec(filter: FilterExecutor)
    | NestedLoopExec(nestedLoop: NestedLoopJoinExecutor)
    | ValuesExec(values: ValuesExecutor)
    | ProjectionExec(projection: ProjectionExecutor)
    | SortExec(sort: SortExecutor)
    | LimitExec(limit: LimitExecutor)
    | TopNExec(topN: TopNExecutor)
    | HashJoinExec(hashJoin: HashJoinExecutor)
    | AggregationExec(aggregation: AggregationExecutor)
  {
    function PlanOf(): Plan {
      match this
      case ScanExec(e) => e.plan
      case FilterExec(e) => e.plan
      case NestedLoopExec(e) => e.plan
      case ValuesExec(e) => e.plan
      case ProjectionExec(e) => e.plan
      case SortExec(e) => e.plan
      case LimitExec(e) => e.plan
      case TopNExec(e) => e.plan
      case HashJoinExec(e) => e.plan
      case AggregationExec(e) => e.plan
    }

    function DatabaseOf(): Database {
      match this
      case ScanExec(e) => e.db
      case FilterExec(e) => e.db
      case NestedLoopExec(e) => e.db
      case ValuesExec(e) => e.db
      case ProjectionExec(e) => e.db
      case SortExec(e) => e.db
      case LimitExec(e) => e.db
      case TopNExec(e) => e.db
      case HashJoinExec(e) => e.db
      case AggregationExec(e) => e.db
    }

    /** The objects of this executor and of the executors below it. */
    ghost function Repr(): set<object> {
      match this
      case ScanExec(e) => e.repr
      case FilterExec(e) => e.repr
      case NestedLoopExec(e) => e.repr
      case ValuesExec(e) => e.repr
      case ProjectionExec(e) => e.repr
      case SortExec(e) => e.repr
      case LimitExec(e) => e.repr
      case TopNExec(e) => e.repr
      case HashJoinExec(e) => e.repr
      case AggregationExec(e) => e.repr
    }

    /** The executor tree has the shape of the plan; nothing in this changes while it runs. */
    ghost predicate Shape()
      decreases PlanOf(), 3
    {
      match this
      case ScanExec(e) => e.Shape()
      case FilterExec(e) => e.Shape()
      case NestedLoopExec(e) => e.Shape()
      case ValuesExec(e) => e.Shape()
      case ProjectionExec(e) => e.Shape()
      case SortExec(e) => e.Shape()
      case LimitExec(e) => e.Shape()
      case TopNExec(e) => e.Shape()
      case HashJoinExec(e) => e.Shape()
      case AggregationExec(e) => e.Shape()
    }

    /** Not initialised yet. */
    ghost predicate Fresh()
      requires Shape()
      reads Repr()
      decreases PlanOf(), 3
    {
      match this
      case ScanExec(e) => true
      case FilterExec(e) => e.Fresh()
      case NestedLoopExec(e) => e.Fresh()
      case ValuesExec(e) => true
      case ProjectionExec(e) => e.Fresh()
      case SortExec(e) => e.Fresh()
      case LimitExec(e) => e.Fresh()
      case TopNExec(e) => e.Fresh()
      case HashJoinExec(e) => e.Fresh()
      case AggregationExec(e) => e.Fresh()
    }

    /** Initialised, and what is still to come follows from the state. */
    ghost predicate Ready()
      requires Shape()
      reads Repr()
      decreases PlanOf(), 3
    {
      match this
      case ScanExec(e) => e.Ready()
      case FilterExec(e) => e.Ready()
      case NestedLoopExec(e) => e.Ready()
      case ValuesExec(e) => e.Ready()
      case ProjectionExec(e) => e.Ready()
      case SortExec(e) => e.Ready()
      case LimitExec(e) => e.Ready()
      case TopNExec(e) => e.Ready()
      case HashJoinExec(e) => e.Ready()
      case AggregationExec(e) => e.Ready()
    }

    ghost function Pending(): seq<Row>
      reads Repr()
      requires Shape()
    {
      match this
      case ScanExec(e) => e.pending
      case FilterExec(e) => assert e.Shape(); e.pending
      case NestedLoopExec(e) => assert e.Shape(); e.pending
      case ValuesExec(e) => assert e.Shape(); e.pending
      case ProjectionExec(e) => assert e.Shape(); e.pending
      case SortExec(e) => assert e.Shape(); e.pending
      case LimitExec(e) => assert e.Shape(); e.pending
      case TopNExec(e) => assert e.Shape(); e.pending
      case HashJoinExec(e) => assert e.Shape(); e.pending
      case AggregationExec(e) => assert e.Shape(); e.pending
    }

    /** Initialises the executor. Returns false where the engine throws. */
    method Init() returns (ok: bool)
      requires Shape() && Fresh() && Initialisable(DatabaseOf(), PlanOf())
      modifies Repr()
      ensures ok ==> Ready() && Allowed(DatabaseOf(), PlanOf(), Rows(Pending()))
      ensures ok ==> RowsHaveTypes(Pending(), PlanOf().Types())
      ensures !ok ==> Allowed(DatabaseOf(), PlanOf(), Throws)
      decreases PlanOf(), 3
    {
      match this {
        case ScanExec(e) => ok := e.Init();
        case FilterExec(e) => ok := e.Init();
        case NestedLoopExec(e) => ok := e.Init();
        case ValuesExec(e) => ok := e.Init();
        case ProjectionExec(e) => ok := e.Init();
        case SortExec(e) => ok := e.Init();
        case LimitExec(e) => ok := e.Init();
        case TopNExec(e) => ok := e.Init();
        case HashJoinExec(e) => ok := e.Init();
        case AggregationExec(e) => ok := e.Init();
      }
      if ok {
        OutcomesAreTyped(DatabaseOf(), PlanOf(), Rows(Pending()));
      }
    }

    /** Hands out the next row, if there is one left. */
    method Next() returns (row: Option<Row>)
      requires Shape() && Ready()
      modifies Repr()
      ensures Ready() && HandsOut(old(Pending()), row, Pending())
      decreases PlanOf(), 3
    {
      match this
      case ScanExec(e) => row := e.Next();
      case FilterExec(e) => row := e.Next();
      case NestedLoopExec(e) => row := e.Next();
      case ValuesExec(e) => row := e.Next();
      case ProjectionExec(e) => row := e.Next();
      case SortExec(e) => row := e.Next();
      case LimitExec(e) => row := e.Next();
      case TopNExec(e) => row := e.Next();
      case HashJoinExec(e) => row := e.Next();
      case AggregationExec(e) => row := e.Next();
    }
  }

  /** What a plan must meet for its executor to be initialised: the rest of the code relies on it. */
  ghost predicate Initialisable(db: Database, plan: Plan) {
    WellFormed(db, plan) && TablesTyped(db) && !Allowed(db, plan, Undefined)
  }

  /** PollExecutor, and the loops with which executors collect the rows of a child. */
  method Drain(e: Executor) returns (rows: seq<Row>)
    requires e.Shape() && e.Ready()
    modifies e.Repr()
    ensures rows == old(e.Pending())
    decreases e.PlanOf(), 4
  {
    rows := [];
    while true
      invariant e.Ready() && rows + e.Pending() == old(e.Pending())
      decreases |e.Pending()|
    {
      ghost var before := e.Pending();
      var tuple := e.Next();
      if tuple.None? {
        break;
      }
      MoveFirst(rows, before);
      rows := rows + [tuple.value];
    }
  }

  // ----- How the outcome of a child makes the outcome of a unary operator -----

  /** Initialises the child of a unary operator. */
  method InitChild(db: Database, plan: Plan, child: Executor) returns (ok: bool)
    requires plan.Unary? && Initialisable(db, plan)
    requires child.Shape() && child.PlanOf() == plan.child && child.DatabaseOf() == db && child.Fresh()
    modifies child.Repr()
    ensures ok ==> child.Ready() && UnaryTyped(plan.op, plan.child.Types(), plan.Types())
    ensures ok ==> RowsHaveTypes(child.Pending(), plan.child.Types()) && Allowed(db, plan.child, Rows(child.Pending()))
    ensures ok ==> !UnaryAllows(plan.op, plan.schema, child.Pending(), Undefined)
    ensures !ok ==> Allowed(db, plan, Throws)
    decreases plan, 0
  {
    assert !Allowed(db, plan.child, Undefined) by {
      if Allowed(db, plan.child, Undefined) {
        ChildFails(db, plan, Undefined);
      }
    }
    ok := child.Init();
    if !ok {
      ChildFails(db, plan, Throws);
      return;
    }
    if UnaryAllows(plan.op, plan.schema, child.Pending(), Undefined) {
      UnaryAllowed(db, plan, child.Pending(), Undefined);
    }
  }

  lemma SortableInput(db: Database, plan: Plan, rows: seq<Row>)
    requires plan.Unary? && (plan.op.Sort? || plan.op.TopN?)
    requires UnaryTyped(plan.op, plan.child.Types(), plan.Types()) && RowsHaveTypes(rows, plan.child.Types())
    requires !UnaryAllows(plan.op, plan.schema, rows, Undefined)
    ensures !AnyNullKey(plan.op.orderBys, rows) && AllSortable(plan.op.orderBys, rows)
  {
    TypedRowsSortable(plan.op.orderBys, rows, plan.child.Types());
  }

  lemma AggregationInput(db: Database, plan: Plan, rows: seq<Row>)
    requires plan.Unary? && plan.op.Aggregation?
    requires UnaryTyped(plan.op, plan.child.Types(), plan.Types()) && RowsHaveTypes(rows, plan.child.Types())
    requires !UnaryAllows(plan.op, plan.schema, rows, Undefined)
    ensures AllTyped(plan.op.groupBys, plan.child.Types()) && AllTyped(plan.op.aggregates, plan.child.Types())
    ensures var es := EntriesOf(plan.op.groupBys, plan.op.aggregates, rows);
            EntriesFit(plan.op.aggTypes, es) && !SomeNullKey(es)
  {
    EntriesTyped(plan.op, rows, plan.child.Types(), plan.Types());
  }

  // ----- Loops over a child -----

  /** The first loop of TopN's Init: pushes every row and pops whenever there is one too many. */
  method FillHeap(e: Executor, orderBys: seq<OrderBy>, n: nat) returns (pq: seq<Row>, ghost dropped: seq<Row>)
    requires e.Shape() && e.Ready() && AllSortable(orderBys, e.Pending())
    modifies e.Repr()
    ensures HeapState(orderBys, n, pq, dropped, old(e.Pending()))
    decreases e.PlanOf(), 4
  {
    ghost var rows, seen := e.Pending(), [];
    pq, dropped := [], [];
    while true
      invariant e.Ready() && rows == seen + e.Pending()
      invariant HeapState(orderBys, n, pq, dropped, seen)
      decreases |e.Pending()|
    {
      ghost var before := e.Pending();
      var tuple := e.Next();
      assert HandsOut(before, tuple, e.Pending());
      if tuple.None? {
        assert seen + [] == seen;
        return;
      }
      MoveFirst(seen, before);
      assert AllSortable(orderBys, seen + [before[0]]);
      pq, dropped := PushCapped(orderBys, n, pq, dropped, seen, tuple.value);
      seen := seen + [before[0]];
    }
  }

  /** The loop that builds the hash table from the right rows. */
  method BuildTable(e: Executor, hash: HashFunction, key: Expression) returns (table: map<int, seq<Row>>)
    requires e.Shape() && e.Ready() && Typed(key, e.PlanOf().Types(), [])
    requires RowsHaveTypes(e.Pending(), e.PlanOf().Types())
    modifies e.Repr()
    ensures HoldsBuckets(table, hash, key, old(e.Pending()))
    decreases e.PlanOf(), 4
  {
    ghost var rows, seen := e.Pending(), [];
    table := map[];
    while true
      invariant e.Ready() && rows == seen + e.Pending() && HoldsBuckets(table, hash, key, seen)
      decreases |e.Pending()|
    {
      ghost var before := e.Pending();
      var tuple := e.Next();
      assert HandsOut(before, tuple, e.Pending());
      if tuple.None? {
        assert seen + [] == seen;
        return;
      }
      MoveFirst(seen, before);
      assert tuple.value in rows;
      EvaluateIsSound(key, e.PlanOf().Types(), tuple.value);
      AddToBucket(table, hash, key, seen, tuple.value);
      var h := HashValue(hash, key.Evaluate(tuple.value).value);
      table := table[h := BucketAt(table, h) + [tuple.value]];
      seen := seen + [before[0]];
    }
  }

  /** The loop that probes the hash table with the left rows. */
  method ProbeTable(e: Executor, spec: HashSpec, table: map<int, seq<Row>>, ghost rs: seq<Row>)
    returns (output: seq<Row>)
    requires e.Shape() && e.Ready() && Typed(spec.leftKey, e.PlanOf().Types(), [])
    requires RowsHaveTypes(e.Pending(), e.PlanOf().Types()) && HoldsBuckets(table, spec.hash, spec.rightKey, rs)
    modifies e.Repr()
    ensures output == old(spec.JoinRows(e.Pending(), rs))
    decreases e.PlanOf(), 4
  {
    ghost var rows := e.Pending();
    output := [];
    while true
      invariant e.Ready() && RowsHaveTypes(e.Pending(), e.PlanOf().Types())
      invariant output + spec.JoinRows(e.Pending(), rs) == spec.JoinRows(rows, rs)
      decreases |e.Pending()|
    {
      ghost var before := e.Pending();
      var tuple := e.Next();
      assert HandsOut(before, tuple, e.Pending());
      if tuple.None? {
        return;
      }
      ProbeRound(spec, e.PlanOf().Types(), before, tuple.value, e.Pending(), rs, output);
      var out := ProbeOne(spec, table, tuple.value, rs);
      output := output + out;
    }
  }

  // ----- How the outcomes of two children make the outcome of a join -----

  lemma JoinAllows(db: Database, plan: Plan, l: Outcome, r: Outcome)
    requires plan.Join? && Allowed(db, plan.left, l) && Allowed(db, plan.right, r)
    ensures Allowed(db, plan, JoinOutcome(db, plan.joinOp, plan.right.Types(), l, r))
  {
  }

  /** A left child that fails makes the join fail, whatever the right child would do. */
  lemma LeftFails(db: Database, plan: Plan, l: Outcome)
    requires plan.Join? && WellFormed(db, plan.right) && TablesTyped(db) && Allowed(db, plan.left, l) && !l.Rows?
    ensures Allowed(db, plan, l)
  {
    var r := PlanHasOutcome(db, plan.right);
    JoinAllows(db, plan, l, r);
  }

  lemma RightFails(db: Database, plan: Plan, ls: seq<Row>, r: Outcome)
    requires plan.Join? && Allowed(db, plan.left, Rows(ls)) && Allowed(db, plan.right, r) && !r.Rows?
    ensures Allowed(db, plan, r)
  {
    JoinAllows(db, plan, Rows(ls), r);
  }

  lemma JoinRowsAllowed(db: Database, plan: Plan, ls: seq<Row>, rs: seq<Row>)
    requires plan.Join? && Allowed(db, plan.left, Rows(ls)) && Allowed(db, plan.right, Rows(rs))
    ensures Allowed(db, plan, Rows(JoinedRows(db, plan.joinOp, plan.right.Types(), ls, rs)))
  {
    JoinAllows(db, plan, Rows(ls), Rows(rs));
  }

  method InitLeft(db: Database, plan: Plan, left: Executor) returns (ok: bool)
    requires plan.Join? && Initialisable(db, plan)
    requires left.Shape() && left.PlanOf() == plan.left && left.DatabaseOf() == db && left.Fresh()
    modifies left.Repr()
    ensures ok ==> left.Ready() && RowsHaveTypes(left.Pending(), plan.left.Types())
    ensures ok ==> Allowed(db, plan.left, Rows(left.Pending()))
    ensures !ok ==> Allowed(db, plan, Throws)
    decreases plan, 0
  {
    if Allowed(db, plan.left, Undefined) {
      LeftFails(db, plan, Undefined);
    }
    ok := left.Init();
    if !ok {
      LeftFails(db, plan, Throws);
    }
  }

  method InitRight(db: Database, plan: Plan, right: Executor, ghost ls: seq<Row>) returns (ok: bool)
    requires plan.Join? && Initialisable(db, plan) && Allowed(db, plan.left, Rows(ls))
    requires right.Shape() && right.PlanOf() == plan.right && right.DatabaseOf() == db && right.Fresh()
    modifies right.Repr()
    ensures ok ==> right.Ready() && RowsHaveTypes(right.Pending(), plan.right.Types())
    ensures ok ==> JoinTyped(plan.joinOp, plan.left.Types(), plan.right.Types(), plan.Types())
    ensures ok ==> Allowed(db, plan, Rows(JoinedRows(db, plan.joinOp, plan.right.Types(), ls, right.Pending())))
    ensures !ok ==> Allowed(db, plan, Throws)
    decreases plan, 0
  {
    if Allowed(db, plan.right, Undefined) {
      RightFails(db, plan, ls, Undefined);
    }
    ok := right.Init();
    if ok {
      JoinRowsAllowed(db, plan, ls, right.Pending());
    } else {
      RightFails(db, plan, ls, Throws);
    }
  }

  class SeqScanExecutor {
    const db: Database
    const plan: Plan
    ghost const repr: set<object>
    var tableIter: nat
    ghost var pending: seq<Row>

    constructor (db: Database, plan: Plan)
      requires plan.Leaf? && plan.leafOp.SeqScan?
      ensures Shape() && fresh(repr) && this.db == db && this.plan == plan
    {
      this.db, this.plan, repr := db, plan, {this};
      tableIter := 0;
    }

    ghost predicate Shape() {
      plan.Leaf? && plan.leafOp.SeqScan? && repr == {this}
    }

    function TableRows(): seq<Row>
      requires Shape() && plan.leafOp.tableOid < |db.tables|
    {
      db.tables[plan.leafOp.tableOid].rows
    }

    ghost predicate Ready()
      requires Shape()
      reads repr
    {
      && LeafTyped(db, plan.leafOp, plan.Types()) && RowsHaveTypes(TableRows(), plan.Types())
      && tableIter <= |TableRows()|
      && pending == ScanRows(plan.leafOp.filterPredicate, TableRows()[tableIter..])
    }

    method Init() returns (ok: bool)
      requires Shape() && Initialisable(db, plan)
      modifies repr
      ensures ok && Ready() && Allowed(db, plan, Rows(pending))
    {
      tableIter := 0;
      pending := LeafRows(db, plan.leafOp);
      assert TableRows()[0..] == TableRows();
      ok := true;
    }

    method Next() returns (row: Option<Row>)
      requires Shape() && Ready()
      modifies repr
      ensures Ready() && HandsOut(old(pending), row, pending)
    {
      var filter := plan.leafOp.filterPredicate;
      row := None;
      while tableIter < |TableRows()|
        invariant Ready() && pending == old(pending)
        decreases |TableRows()| - tableIter
      {
        var tuple := TableRows()[tableIter];
        assert TableRows()[tableIter..] == [tuple] + TableRows()[tableIter + 1..];
        KeepCons(ScanTest(filter), tuple, TableRows()[tableIter + 1..]);
        tableIter := tableIter + 1;
        assert filter.Some? ==> filter.value.Evaluate(tuple).Some? by {
          assert tuple in TableRows();
          if filter.Some? {
            EvaluateIsSound(filter.value, plan.Types(), tuple);
          }
        }
        if filter.None? || filter.value.Evaluate(tuple).value.GetAsBool() {
          pending := pending[1..];
          return Some(tuple);
        }
      }
    }
  }

  class FilterExecutor {
    const db: Database
    const plan: Plan
    const child: Executor
    ghost const repr: set<object>
    ghost var pending: seq<Row>

    constructor (db: Database, plan: Plan, child: Executor)
      requires plan.Unary? && plan.op.Filter?
      requires child.Shape() && child.PlanOf() == plan.child && child.DatabaseOf() == db && child.Fresh()
      ensures Shape() && Fresh() && repr == {this} + child.Repr() && this.db == db && this.plan == plan
    {
      this.db, this.plan, this.child, repr := db, plan, child, {this} + child.Repr();
    }

    ghost predicate Shape()
      decreases plan, 2
    {
      && plan.Unary? && plan.op.Filter?
      && child.PlanOf() == plan.child && child.DatabaseOf() == db && child.Shape()
      && repr == {this} + child.Repr() && this !in child.Repr()
    }

    ghost predicate Fresh()
      requires Shape()
      reads repr
      decreases plan, 2
    {
      child.Fresh()
    }

    ghost predicate Ready()
      requires Shape()
      reads repr
      decreases plan, 2
    {
      && Typed(plan.op.pred, plan.child.Types(), [])
      && child.Ready() && RowsHaveTypes(child.Pending(), plan.child.Types())
      && pending == FilterRows(plan.op.pred, child.Pending())
    }

    method Init() returns (ok: bool)
      requires Shape() && Fresh() && Initialisable(db, plan)
      modifies repr
      ensures ok ==> Ready() && Allowed(db, plan, Rows(pending))
      ensures !ok ==> Allowed(db, plan, Throws)
      decreases plan, 2
    {
      assert !Allowed(db, plan.child, Undefined);
      ok := child.Init();
      if ok {
        pending := FilterRows(plan.op.pred, child.Pending());
      }
    }

    /** One round of Next's loop: pulls a row from the child, which may pass or not. */
    method Pull() returns (done: bool, row: Option<Row>)
      requires Shape() && Ready()
      modifies repr
      ensures Ready()
      ensures if done then HandsOut(old(pending), row, pending) else pending == old(pending)
      ensures !done ==> |child.Pending()| < old(|child.Pending()|)
      decreases plan, 1
    {
      ghost var before := child.Pending();
      row := child.Next();
      assert child.Ready() && HandsOut(before, row, child.Pending());
      if row.None? {
        return true, None;
      }
      FilterStep(plan.op.pred, plan.child.Types(), before, row.value, child.Pending());
      var value := plan.op.pred.Evaluate(row.value).value;
      done := !value.IsNull() && value.GetAsBool();
      pending := FilterRows(plan.op.pred, child.Pending());
    }

    method Next() returns (row: Option<Row>)
      requires Shape() && Ready()
      modifies repr
      ensures Ready() && HandsOut(old(pending), row, pending)
      decreases plan, 2
    {
      while true
        invariant Ready() && pending == old(pending)
        decreases |child.Pending()|
      {
        var done;
        done, row := Pull();
        if done {
          return;
        }
      }
    }
  }

  class NestedLoopJoinExecutor {
    const db: Database
    const plan: Plan
    const leftExecutor: Executor
    const rightExecutor: Executor
    ghost const repr: set<object>
    var rightTuples: seq<Row>
    var leftTuple: Row
    var rightTupleIdx: int
    ghost var pending: seq<Row>

    constructor (db: Database, plan: Plan, left: Executor, right: Executor)
      requires plan.Join? && plan.joinOp.NestedLoopJoin?
      requires left.Shape() && left.PlanOf() == plan.left && left.DatabaseOf() == db && left.Fresh()
      requires right.Shape() && right.PlanOf() == plan.right && right.DatabaseOf() == db && right.Fresh()
      requires left.Repr() !! right.Repr()
      ensures Shape() && Fresh() && repr == {this} + left.Repr() + right.Repr() && this.db == db && this.plan == plan
    {
      this.db, this.plan, leftExecutor, rightExecutor := db, plan, left, right;
      repr := {this} + left.Repr() + right.Repr();
      rightTuples, leftTuple, rightTupleIdx := [], [], -1;
    }

    ghost predicate Shape()
      decreases plan, 2
    {
      && plan.Join? && plan.joinOp.NestedLoopJoin?
      && leftExecutor.PlanOf() == plan.left && leftExecutor.DatabaseOf() == db && leftExecutor.Shape()
      && rightExecutor.PlanOf() == plan.right && rightExecutor.DatabaseOf() == db && rightExecutor.Shape()
      && repr == {this} + leftExecutor.Repr() + rightExecutor.Repr()
      && this !in leftExecutor.Repr() && this !in rightExecutor.Repr() && leftExecutor.Repr() !! rightExecutor.Repr()
    }

    ghost predicate Fresh()
      requires Shape()
      reads repr
      decreases plan, 2
    {
      rightTuples == [] && rightTupleIdx == -1 && leftExecutor.Fresh() && rightExecutor.Fresh()
    }

    ghost predicate Ready()
      requires Shape()
      reads repr
      decreases plan, 2
    {
      && Typed(plan.joinOp.pred, plan.left.Types(), plan.right.Types())
      && leftExecutor.Ready() && RowsHaveTypes(leftExecutor.Pending(), plan.left.Types())
      && RowsHaveTypes(rightTuples, plan.right.Types())
      && -1 <= rightTupleIdx <= |rightTuples|
      && (rightTupleIdx >= 0 ==> RowHasTypes(leftTuple, plan.left.Types()))
      && pending == NestedLoopPending(plan.joinOp, plan.right.Types(), leftTuple, rightTupleIdx, leftExecutor.Pending(),
                                      rightTuples)
    }

    method Init() returns (ok: bool)
      requires Shape() && Fresh() && Initialisable(db, plan)
      modifies repr
      ensures ok ==> Ready() && Allowed(db, plan, Rows(pending))
      ensures !ok ==> Allowed(db, plan, Throws)
      decreases plan, 2
    {
      ok := InitLeft(db, plan, leftExecutor);
      if ok {
        ghost var ls := leftExecutor.Pending();
        ok := InitRight(db, plan, rightExecutor, ls);
        assert leftExecutor.Ready() && leftExecutor.Pending() == ls;
        if ok {
          FetchRight();
        }
      }
    }

    /** The second half of Init: collects the rows of the right side. */
    method FetchRight()
      requires Shape() && rightTupleIdx == -1 && leftExecutor.Ready() && rightExecutor.Ready()
      requires Typed(plan.joinOp.pred, plan.left.Types(), plan.right.Types())
      requires RowsHaveTypes(leftExecutor.Pending(), plan.left.Types())
      requires RowsHaveTypes(rightExecutor.Pending(), plan.right.Types())
      modifies repr
      ensures Ready()
      ensures pending == old(JoinedRows(db, plan.joinOp, plan.right.Types(), leftExecutor.Pending(),
                                        rightExecutor.Pending()))
      decreases plan, 0
    {
      ghost var ls, rs := leftExecutor.Pending(), rightExecutor.Pending();
      var tuples := Drain(rightExecutor);
      assert leftExecutor.Ready() && leftExecutor.Pending() == ls && tuples == rs;
      rightTuples := tuples;
      pending := JoinedRows(db, plan.joinOp, plan.right.Types(), ls, rs);
      NestedLoopStarts(db, plan.joinOp, plan.right.Types(), leftTuple, ls, rs);
    }

    /** Fetches the next left row; returns false if there is none left. */
    method FetchLeft() returns (more: bool)
      requires Shape() && Ready() && rightTupleIdx < 0
      modifies repr
      ensures rightTupleIdx == old(rightTupleIdx) && pending == old(pending)
      ensures if more then HasCurrent() && |leftExecutor.Pending()| < old(|leftExecutor.Pending()|)
              else Ready() && pending == []
      decreases plan, 0
    {
      ghost var before := leftExecutor.Pending();
      var tuple := leftExecutor.Next();
      ghost var after := leftExecutor.Pending();
      assert leftExecutor.Ready() && HandsOut(before, tuple, after);
      more := tuple.Some?;
      if more {
        FetchedLeft(plan.joinOp, plan.left.Types(), plan.right.Types(), leftTuple, before, tuple.value, after,
                    rightTuples);
        leftTuple := tuple.value;
        assert leftExecutor.Ready() && leftExecutor.Pending() == after;
      }
    }

    /** A left row has been fetched, and its rows from the cursor on are still to come. */
    ghost predicate HasCurrent()
      requires Shape()
      reads repr
    {
      && Typed(plan.joinOp.pred, plan.left.Types(), plan.right.Types())
      && leftExecutor.Ready() && RowsHaveTypes(leftExecutor.Pending(), plan.left.Types())
      && RowsHaveTypes(rightTuples, plan.right.Types()) && RowHasTypes(leftTuple, plan.left.Types())
      && -1 <= rightTupleIdx <= |rightTuples|
      && pending == NestedLoopNow(plan.joinOp, plan.right.Types(), leftTuple, rightTupleIdx, leftExecutor.Pending(),
                                  rightTuples)
    }

    /** The rest of Next's loop body: hands out a row made from the current left row, or gives that row up. */
    method TryCurrent() returns (row: Option<Row>)
      requires Shape() && HasCurrent()
      modifies this
      ensures Ready()
      ensures row.None? ==> rightTupleIdx == -1 && pending == old(pending)
      ensures row.Some? ==> old(pending) == [row.value] + pending
    {
      ghost var ls := leftExecutor.Pending();
      var cursor: int;
      row, cursor := MatchFrom(plan.joinOp, plan.left.Types(), plan.right.Types(), leftTuple, rightTuples,
                               rightTupleIdx, ls);
      pending := NestedLoopPending(plan.joinOp, plan.right.Types(), leftTuple, cursor, ls, rightTuples);
      rightTupleIdx := cursor;
      assert leftExecutor.Ready() && leftExecutor.Pending() == ls;
    }

    /** One round of Next's loop: `done` if it hands out a row or finds that there is none left. */
    method Round() returns (done: bool, row: Option<Row>)
      requires Shape() && Ready()
      modifies repr
      ensures Ready()
      ensures if done then HandsOut(old(pending), row, pending) else pending == old(pending) && rightTupleIdx < 0
      ensures !done ==> |leftExecutor.Pending()| <= old(|leftExecutor.Pending()|)
      ensures !done && old(rightTupleIdx) < 0 ==> |leftExecutor.Pending()| < old(|leftExecutor.Pending()|)
      decreases plan, 1
    {
      if rightTupleIdx < 0 {
        var more := FetchLeft();
        if !more {
          return true, None;
        }
      }
      row := TryCurrent();
      done := row.Some?;
    }

    method Next() returns (row: Option<Row>)
      requires Shape() && Ready()
      modifies repr
      ensures Ready() && HandsOut(old(pending), row, pending)
      decreases plan, 2
    {
      while true
        invariant Ready() && pending == old(pending)
        decreases |leftExecutor.Pending()|, if rightTupleIdx < 0 then 0 else 1
      {
        var done;
        done, row := Round();
        if done {
          return;
        }
      }
    }
  }

  class ValuesExecutor {
    const db: Database
    const plan: Plan
    ghost const repr: set<object>
    var cursor: nat
    ghost var pending: seq<Row>

    constructor (db: Database, plan: Plan)
      requires plan.Leaf? && plan.leafOp.Values?
      ensures Shape() && fresh(repr) && this.db == db && this.plan == plan
    {
      this.db, this.plan, repr := db, plan, {this};
      cursor := 0;
    }

    ghost predicate Shape() {
      plan.Leaf? && plan.leafOp.Values? && repr == {this}
    }

    ghost predicate Ready()
      requires Shape()
      reads repr
    {
      && LeafTyped(db, plan.leafOp, plan.Types())
      && cursor <= |plan.leafOp.values|
      && pending == ValueRows(plan.leafOp.values[cursor..])
    }

    method Init() returns (ok: bool)
      requires Shape() && Initialisable(db, plan)
      modifies repr
      ensures ok && Ready() && Allowed(db, plan, Rows(pending))
    {
      cursor := 0;
      assert plan.leafOp.values[0..] == plan.leafOp.values;
      pending := LeafRows(db, plan.leafOp);
      ok := true;
    }

    method Next() returns (row: Option<Row>)
      requires Shape() && Ready()
      modifies repr
      ensures Ready() && HandsOut(old(pending), row, pending)
    {
      if cursor >= |plan.leafOp.values| {
        return None;
      }
      var rowExpr := plan.leafOp.values[cursor];
      assert rowExpr in plan.leafOp.values;
      var values := EvaluateAll(rowExpr, [], []);
      ValueRowsStep(plan.leafOp.values[cursor..]);
      assert plan.leafOp.values[cursor..][1..] == plan.leafOp.values[cursor + 1..];
      cursor := cursor + 1;
      pending := pending[1..];
      return Some(values);
    }
  }

  class ProjectionExecutor {
    const db: Database
    const plan: Plan
    const child: Executor
    ghost const repr: set<object>
    ghost var pending: seq<Row>

    constructor (db: Database, plan: Plan, child: Executor)
      requires plan.Unary? && plan.op.Projection?
      requires child.Shape() && child.PlanOf() == plan.child && child.DatabaseOf() == db && child.Fresh()
      ensures Shape() && Fresh() && repr == {this} + child.Repr() && this.db == db && this.plan == plan
    {
      this.db, this.plan, this.child, repr := db, plan, child, {this} + child.Repr();
    }

    ghost predicate Shape()
      decreases plan, 2
    {
      && plan.Unary? && plan.op.Projection?
      && child.PlanOf() == plan.child && child.DatabaseOf() == db && child.Shape()
      && repr == {this} + child.Repr() && this !in child.Repr()
    }

    ghost predicate Fresh()
      requires Shape()
      reads repr
      decreases plan, 2
    {
      child.Fresh()
    }

    ghost predicate Ready()
      requires Shape()
      reads repr
      decreases plan, 2
    {
      && AllTyped(plan.op.expressions, plan.child.Types())
      && child.Ready() && RowsHaveTypes(child.Pending(), plan.child.Types())
      && pending == ProjectRows(plan.op.expressions, child.Pending())
    }

    method Init() returns (ok: bool)
      requires Shape() && Fresh() && Initialisable(db, plan)
      modifies repr
      ensures ok ==> Ready() && Allowed(db, plan, Rows(pending))
      ensures !ok ==> Allowed(db, plan, Throws)
      decreases plan, 2
    {
      ok := InitChild(db, plan, child);
      if ok {
        pending := ProjectRows(plan.op.expressions, child.Pending());
        UnaryAllowed(db, plan, child.Pending(), Rows(pending));
      }
    }

    method Next() returns (row: Option<Row>)
      requires Shape() && Ready()
      modifies repr
      ensures Ready() && HandsOut(old(pending), row, pending)
      decreases plan, 2
    {
      ghost var before := child.Pending();
      var childTuple := child.Next();
      assert HandsOut(before, childTuple, child.Pending());
      if childTuple.None? {
        return None;
      }
      assert before[0] in before;
      var values := EvaluateAll(plan.op.expressions, childTuple.value, plan.child.Types());
      pending := pending[1..];
      return Some(values);
    }
  }

  class SortExecutor {
    const db: Database
    const plan: Plan
    const child: Executor
    ghost const repr: set<object>
    var childTuples: seq<Row>
    var childIter: nat
    ghost var pending: seq<Row>

    constructor (db: Database, plan: Plan, child: Executor)
      requires plan.Unary? && plan.op.Sort?
      requires child.Shape() && child.PlanOf() == plan.child && child.DatabaseOf() == db && child.Fresh()
      ensures Shape() && Fresh() && repr == {this} + child.Repr() && this.db == db && this.plan == plan
    {
      this.db, this.plan, this.child, repr := db, plan, child, {this} + child.Repr();
      childTuples, childIter := [], 0;
    }

    ghost predicate Shape()
      decreases plan, 2
    {
      && plan.Unary? && plan.op.Sort?
      && child.PlanOf() == plan.child && child.DatabaseOf() == db && child.Shape()
      && repr == {this} + child.Repr() && this !in child.Repr()
    }

    ghost predicate Fresh()
      requires Shape()
      reads repr
      decreases plan, 2
    {
      childTuples == [] && child.Fresh()
    }

    ghost predicate Ready()
      requires Shape()
      reads repr
    {
      childIter <= |childTuples| && pending == childTuples[childIter..]
    }

    method Init() returns (ok: bool)
      requires Shape() && Fresh() && Initialisable(db, plan)
      modifies repr
      ensures ok ==> Ready() && Allowed(db, plan, Rows(pending))
      ensures !ok ==> Allowed(db, plan, Throws)
      decreases plan, 2
    {
      ok := InitChild(db, plan, child);
      if ok {
        ghost var rows := child.Pending();
        SortableInput(db, plan, rows);
        FetchAndSort();
        UnaryAllowed(db, plan, rows, Rows(pending));
      }
    }

    /** The rest of Init: collects the rows of the child and sorts them. */
    method FetchAndSort()
      requires Shape() && child.Ready() && AllSortable(plan.op.orderBys, child.Pending())
      modifies repr
      ensures Ready() && IsSortOf(plan.op.orderBys, pending, old(child.Pending()))
      decreases plan, 0
    {
      var tuples := Drain(child);
      childTuples := StdSort(plan.op.orderBys, tuples);
      childIter := 0;
      pending := childTuples;
    }

    method Next() returns (row: Option<Row>)
      requires Shape() && Ready()
      modifies this
      ensures Ready() && HandsOut(old(pending), row, pending)
    {
      if childIter == |childTuples| {
        return None;
      }
      row := Some(childTuples[childIter]);
      childIter := childIter + 1;
      pending := pending[1..];
    }
  }

  class LimitExecutor {
    const db: Database
    const plan: Plan
    const child: Executor
    ghost const repr: set<object>
    var count: nat
    ghost var pending: seq<Row>

    constructor (db: Database, plan: Plan, child: Executor)
      requires plan.Unary? && plan.op.Limit?
      requires child.Shape() && child.PlanOf() == plan.child && child.DatabaseOf() == db && child.Fresh()
      ensures Shape() && Fresh() && repr == {this} + child.Repr() && this.db == db && this.plan == plan
    {
      this.db, this.plan, this.child, repr := db, plan, child, {this} + child.Repr();
      count := 0;
    }

    ghost predicate Shape()
      decreases plan, 2
    {
      && plan.Unary? && plan.op.Limit?
      && child.PlanOf() == plan.child && child.DatabaseOf() == db && child.Shape()
      && repr == {this} + child.Repr() && this !in child.Repr()
    }

    ghost predicate Fresh()
      requires Shape()
      reads repr
      decreases plan, 2
    {
      child.Fresh()
    }

    ghost predicate Ready()
      requires Shape()
      reads repr
      decreases plan, 2
    {
      count <= plan.op.limit && child.Ready() && pending == Limited(plan.op.limit, count, child.Pending())
    }

    method Init() returns (ok: bool)
      requires Shape() && Fresh() && Initialisable(db, plan)
      modifies repr
      ensures ok ==> Ready() && Allowed(db, plan, Rows(pending))
      ensures !ok ==> Allowed(db, plan, Throws)
      decreases plan, 2
    {
      ok := InitChild(db, plan, child);
      if ok {
        ghost var rows := child.Pending();
        UnaryAllowed(db, plan, rows, Rows(Limited(plan.op.limit, 0, rows)));
        count := 0;
        pending := Limited(plan.op.limit, 0, rows);
      }
    }

    method Next() returns (row: Option<Row>)
      requires Shape() && Ready()
      modifies repr
      ensures Ready() && HandsOut(old(pending), row, pending)
      decreases plan, 2
    {
      ghost var before := child.Pending();
      if count >= plan.op.limit {
        NothingToCome(plan.op.limit, count, before);
        return None;
      }
      row := child.Next();
      ghost var after := child.Pending();
      assert child.Ready() && HandsOut(before, row, after);
      if row.None? {
        NothingToCome(plan.op.limit, count, before);
        return;
      }
      LimitStep(plan.op.limit, count, before, row.value, after);
      count := count + 1;
      pending := Limited(plan.op.limit, count, after);
      assert child.Ready() && child.Pending() == after;
    }
  }

  class TopNExecutor {
    const db: Database
    const plan: Plan
    const child: Executor
    ghost const repr: set<object>
    /** The stack; its top is the last element. */
    var childTuples: seq<Row>
    ghost var pending: seq<Row>

    constructor (db: Database, plan: Plan, child: Executor)
      requires plan.Unary? && plan.op.TopN?
      requires child.Shape() && child.PlanOf() == plan.child && child.DatabaseOf() == db && child.Fresh()
      ensures Shape() && Fresh() && repr == {this} + child.Repr() && this.db == db && this.plan == plan
    {
      this.db, this.plan, this.child, repr := db, plan, child, {this} + child.Repr();
      childTuples := [];
    }

    ghost predicate Shape()
      decreases plan, 2
    {
      && plan.Unary? && plan.op.TopN?
      && child.PlanOf() == plan.child && child.DatabaseOf() == db && child.Shape()
      && repr == {this} + child.Repr() && this !in child.Repr()
    }

    ghost predicate Fresh()
      requires Shape()
      reads repr
      decreases plan, 2
    {
      childTuples == [] && child.Fresh()
    }

    ghost predicate Ready()
      requires Shape()
      reads repr
    {
      pending == Reverse(childTuples)
    }

    method Init() returns (ok: bool)
      requires Shape() && Fresh() && Initialisable(db, plan)
      modifies repr
      ensures ok ==> Ready() && Allowed(db, plan, Rows(pending))
      ensures !ok ==> Allowed(db, plan, Throws)
      decreases plan, 2
    {
      ok := InitChild(db, plan, child);
      if ok {
        ghost var rows := child.Pending();
        SortableInput(db, plan, rows);
        FetchTop();
        UnaryAllowed(db, plan, rows, Rows(pending));
      }
    }

    /** The rest of Init: the capped heap, and popping it onto the stack. */
    method FetchTop()
      requires Shape() && child.Ready() && AllSortable(plan.op.orderBys, child.Pending()) && childTuples == []
      modifies repr
      ensures Ready() && IsTopN(plan.op.orderBys, plan.op.n, pending, old(child.Pending()))
      decreases plan, 0
    {
      ghost var rows := child.Pending();
      ghost var dropped;
      var pq;
      pq, dropped := FillHeap(child, plan.op.orderBys, plan.op.n);
      assert AllSortable(plan.op.orderBys, pq) by {
        HeapMembers(pq, dropped, rows);
      }
      PopAll(pq, dropped, rows);
    }

    /** Pops the heap onto the stack. */
    method PopAll(heap: seq<Row>, ghost dropped: seq<Row>, ghost rows: seq<Row>)
      requires Shape() && AllSortable(plan.op.orderBys, heap) && AllSortable(plan.op.orderBys, rows)
               && childTuples == []
      requires HeapState(plan.op.orderBys, plan.op.n, heap, dropped, rows)
      modifies this
      ensures Ready() && IsTopN(plan.op.orderBys, plan.op.n, pending, rows)
    {
      var orderBys := plan.op.orderBys;
      var pq := heap;
      while pq != []
        invariant StackState(orderBys, pq, childTuples, heap) && AllSortable(orderBys, pq)
        decreases |pq|
      {
        var top, rest := PopTop(orderBys, pq);
        PopOntoStack(orderBys, pq, childTuples, heap, top, rest);
        HeapMembers(rest, [top], pq);
        childTuples := childTuples + [top];
        pq := rest;
      }
      pending := Reverse(childTuples);
      StackIsTopN(orderBys, plan.op.n, heap, dropped, rows, childTuples);
    }

    method Next() returns (row: Option<Row>)
      requires Shape() && Ready()
      modifies this
      ensures Ready() && HandsOut(old(pending), row, pending)
    {
      if childTuples == [] {
        return None;
      }
      var last := |childTuples| - 1;
      row := Some(childTuples[last]);
      assert childTuples == childTuples[..last] + [childTuples[last]];
      ReversePush(childTuples[..last], childTuples[last]);
      childTuples := childTuples[..last];
      pending := pending[1..];
    }
  }

  class HashJoinExecutor {
    const db: Database
    const plan: Plan
    const leftExecutor: Executor
    const rightExecutor: Executor
    ghost const repr: set<object>
    var hashJoinTable: map<int, seq<Row>>
    var outputTuples: seq<Row>
    var outputTuplesIter: nat
    ghost var pending: seq<Row>

    constructor (db: Database, plan: Plan, left: Executor, right: Executor)
      requires plan.Join? && plan.joinOp.HashJoin?
      requires left.Shape() && left.PlanOf() == plan.left && left.DatabaseOf() == db && left.Fresh()
      requires right.Shape() && right.PlanOf() == plan.right && right.DatabaseOf() == db && right.Fresh()
      requires left.Repr() !! right.Repr()
      ensures Shape() && Fresh() && repr == {this} + left.Repr() + right.Repr() && this.db == db && this.plan == plan
    {
      this.db, this.plan, leftExecutor, rightExecutor := db, plan, left, right;
      repr := {this} + left.Repr() + right.Repr();
      hashJoinTable, outputTuples, outputTuplesIter := map[], [], 0;
    }

    ghost predicate Shape()
      decreases plan, 2
    {
      && plan.Join? && plan.joinOp.HashJoin?
      && leftExecutor.PlanOf() == plan.left && leftExecutor.DatabaseOf() == db && leftExecutor.Shape()
      && rightExecutor.PlanOf() == plan.right && rightExecutor.DatabaseOf() == db && rightExecutor.Shape()
      && repr == {this} + leftExecutor.Repr() + rightExecutor.Repr()
      && this !in leftExecutor.Repr() && this !in rightExecutor.Repr() && leftExecutor.Repr() !! rightExecutor.Repr()
    }

    ghost predicate Fresh()
      requires Shape()
      reads repr
      decreases plan, 2
    {
      hashJoinTable == map[] && outputTuples == [] && leftExecutor.Fresh() && rightExecutor.Fresh()
    }

    ghost predicate Ready()
      requires Shape()
      reads repr
    {
      outputTuplesIter <= |outputTuples| && pending == outputTuples[outputTuplesIter..]
    }

    function Spec(): HashSpec
      requires Shape()
    {
      HashSpec(db.hash, plan.joinOp.leftKey, plan.joinOp.rightKey, plan.joinOp.joinType, plan.right.Types())
    }

    method Init() returns (ok: bool)
      requires Shape() && Fresh() && Initialisable(db, plan)
      modifies repr
      ensures ok ==> Ready() && Allowed(db, plan, Rows(pending))
      ensures !ok ==> Allowed(db, plan, Throws)
      decreases plan, 2
    {
      ok := InitLeft(db, plan, leftExecutor);
      if ok {
        ghost var ls := leftExecutor.Pending();
        ok := InitRight(db, plan, rightExecutor, ls);
        assert leftExecutor.Ready() && leftExecutor.Pending() == ls;
        if ok {
          BuildAndProbe();
        }
      }
    }

    /** The rest of Init: builds the table from the right rows, then probes it with the left rows. */
    method BuildAndProbe()
      requires Shape() && leftExecutor.Ready() && rightExecutor.Ready()
      requires Typed(plan.joinOp.leftKey, plan.left.Types(), []) && Typed(plan.joinOp.rightKey, plan.right.Types(), [])
      requires RowsHaveTypes(leftExecutor.Pending(), plan.left.Types())
      requires RowsHaveTypes(rightExecutor.Pending(), plan.right.Types())
      modifies repr
      ensures Ready() && pending == old(Spec().JoinRows(leftExecutor.Pending(), rightExecutor.Pending()))
      decreases plan, 0
    {
      ghost var ls, rs := leftExecutor.Pending(), rightExecutor.Pending();
      var table := BuildTable(rightExecutor, db.hash, plan.joinOp.rightKey);
      assert leftExecutor.Ready() && leftExecutor.Pending() == ls;
      var output := ProbeTable(leftExecutor, Spec(), table, rs);
      hashJoinTable, outputTuples, outputTuplesIter := table, output, 0;
      pending := output;
    }

    method Next() returns (row: Option<Row>)
      requires Shape() && Ready()
      modifies this
      ensures Ready() && HandsOut(old(pending), row, pending)
    {
      if outputTuplesIter == |outputTuples| {
        return None;
      }
      row := Some(outputTuples[outputTuplesIter]);
      outputTuplesIter := outputTuplesIter + 1;
      pending := pending[1..];
    }
  }

  class AggregationExecutor {
    const db: Database
    const plan: Plan
    const child: Executor
    const aht: SimpleAggregationHashTable
    ghost const repr: set<object>
    /** The keys of the entries the iterator has still to visit. */
    var ahtIterator: seq<Row>
    ghost var pending: seq<Row>

    constructor (db: Database, plan: Plan, child: Executor)
      requires plan.Unary? && plan.op.Aggregation?
      requires child.Shape() && child.PlanOf() == plan.child && child.DatabaseOf() == db && child.Fresh()
      ensures Shape() && Fresh() && this.db == db && this.plan == plan
      ensures repr == {this, aht} + child.Repr() && fresh(aht)
    {
      this.db, this.plan, this.child := db, plan, child;
      var table := new SimpleAggregationHashTable(plan.op.aggTypes);
      aht := table;
      repr := {this, table} + child.Repr();
      ahtIterator := [];
    }

    ghost predicate Shape()
      decreases plan, 2
    {
      && plan.Unary? && plan.op.Aggregation?
      && child.PlanOf() == plan.child && child.DatabaseOf() == db && child.Shape()
      && repr == {this, aht} + child.Repr() && this !in child.Repr() && aht !in child.Repr()
      && aht.aggTypes == plan.op.aggTypes
    }

    ghost predicate Fresh()
      requires Shape()
      reads repr
      decreases plan, 2
    {
      aht.ht == map[] && child.Fresh()
    }

    ghost predicate Ready()
      requires Shape()
      reads repr
    {
      (forall k :: k in ahtIterator ==> k in aht.ht) && pending == GroupRows(aht.ht, ahtIterator)
    }

    method Init() returns (ok: bool)
      requires Shape() && Fresh() && Initialisable(db, plan)
      modifies repr
      ensures ok ==> Ready() && Allowed(db, plan, Rows(pending))
      ensures !ok ==> Allowed(db, plan, Throws)
      decreases plan, 2
    {
      ok := InitChild(db, plan, child);
      if ok {
        ghost var rows := child.Pending();
        AggregationInput(db, plan, rows);
        ok := InsertRows();
        if !ok {
          UnaryAllowed(db, plan, rows, Throws);
          return;
        }
        StartIterating(rows);
        UnaryAllowed(db, plan, rows, Rows(pending));
      }
    }

    function EntriesFrom(rows: seq<Row>): seq<Entry>
      requires Shape()
    {
      EntriesOf(plan.op.groupBys, plan.op.aggregates, rows)
    }

    /** The loop of Init. Returns false where an insertion throws. */
    method InsertRows() returns (ok: bool)
      requires Shape() && child.Ready() && aht.ht == map[]
      requires RowsHaveTypes(child.Pending(), plan.child.Types())
      requires AllTyped(plan.op.groupBys, plan.child.Types()) && AllTyped(plan.op.aggregates, plan.child.Types())
      requires EntriesFit(plan.op.aggTypes, EntriesFrom(child.Pending()))
      modifies repr
      ensures ok == old(TableOf(plan.op.aggTypes, EntriesFrom(child.Pending())).Some?)
      ensures ok ==> aht.ht == old(TableOf(plan.op.aggTypes, EntriesFrom(child.Pending())).value)
      decreases plan, 1
    {
      ghost var rows, seen := child.Pending(), [];
      assert EntriesFrom([]) == [];
      while true
        invariant child.Ready() && rows == seen + child.Pending()
        invariant RowsHaveTypes(child.Pending(), plan.child.Types())
        invariant EntriesFit(plan.op.aggTypes, EntriesFrom(seen))
        invariant TableOf(plan.op.aggTypes, EntriesFrom(seen)) == Some(aht.ht)
        decreases |child.Pending()|
      {
        ghost var before := child.Pending();
        var more;
        more, ok := InsertNext(seen);
        if !more {
          assert seen + [] == seen;
          return true;
        }
        MoveFirst(seen, before);
        seen := seen + [before[0]];
        if !ok {
          TableFailsEarly(plan.op, seen, before[1..]);
          return;
        }
      }
    }

    /** One round of that loop: inserts the next row of the child, if there is one. */
    method InsertNext(ghost seen: seq<Row>) returns (more: bool, ok: bool)
      requires Shape() && child.Ready() && RowsHaveTypes(child.Pending(), plan.child.Types())
      requires AllTyped(plan.op.groupBys, plan.child.Types()) && AllTyped(plan.op.aggregates, plan.child.Types())
      requires EntriesFit(plan.op.aggTypes, EntriesFrom(seen + child.Pending()))
      requires EntriesFit(plan.op.aggTypes, EntriesFrom(seen))
      requires TableOf(plan.op.aggTypes, EntriesFrom(seen)) == Some(aht.ht)
      modifies repr
      ensures child.Ready() && more == (old(child.Pending()) != [])
      ensures child.Pending() == if more then old(child.Pending())[1..] else []
      ensures !more ==> aht.ht == old(aht.ht)
      ensures more ==> var now := EntriesFrom(seen + [old(child.Pending())[0]]);
                       && EntriesFit(plan.op.aggTypes, now) && ok == TableOf(plan.op.aggTypes, now).Some?
                       && (ok ==> aht.ht == TableOf(plan.op.aggTypes, now).value)
      decreases plan, 0
    {
      ghost var before := child.Pending();
      var tuple := child.Next();
      assert child.Ready() && HandsOut(before, tuple, child.Pending());
      more, ok := tuple.Some?, true;
      if more {
        assert before == [before[0]] + before[1..];
        TableStep(plan.op, seen, before[0], before[1..]);
        assert before[0] in before;
        ok := InsertRow(tuple.value);
      }
    }

    method InsertRow(row: Row) returns (ok: bool)
      requires Shape() && child.Ready() && aht.Valid() && RowHasTypes(row, plan.child.Types())
      requires AllTyped(plan.op.groupBys, plan.child.Types()) && AllTyped(plan.op.aggregates, plan.child.Types())
      requires |ProjectRow(plan.op.aggregates, row)| == |plan.op.aggTypes|
      modifies aht
      ensures child.Ready() && child.Pending() == old(child.Pending())
      ensures var e := Entry(ProjectRow(plan.op.groupBys, row), ProjectRow(plan.op.aggregates, row));
              && ok == old(InsertCombine(plan.op.aggTypes, aht.ht, e).Some?)
              && (ok ==> aht.ht == old(InsertCombine(plan.op.aggTypes, aht.ht, e).value))
      decreases plan, 0
    {
      var key := EvaluateAll(plan.op.groupBys, row, plan.child.Types());
      var value := EvaluateAll(plan.op.aggregates, row, plan.child.Types());
      ok := aht.InsertCombine(key, value);
    }

    /** The end of Init: an entry for no rows at all, if there is one output column, and the iterator. */
    method StartIterating(ghost rows: seq<Row>)
      requires Shape() && EntriesFit(plan.op.aggTypes, EntriesFrom(rows)) && !SomeNullKey(EntriesFrom(rows))
      requires TableOf(plan.op.aggTypes, EntriesFrom(rows)) == Some(aht.ht)
      requires !AggregationAllows(plan.op, plan.schema, rows, Undefined)
      modifies this, aht
      ensures Ready() && AggregationAllows(plan.op, plan.schema, rows, Rows(pending))
    {
      ghost var table := aht.ht;
      if |aht.ht| == 0 && |plan.schema| == 1 {
        aht.InsertIntialCombine();
      }
      ahtIterator := aht.Begin();
      pending := GroupRows(aht.ht, ahtIterator);
      if table == map[] && |plan.schema| == 1 {
        OneGroup(plan.op.aggTypes, aht.ht, ahtIterator);
      }
    }

    method Next() returns (row: Option<Row>)
      requires Shape() && Ready()
      modifies this
      ensures Ready() && HandsOut(old(pending), row, pending)
    {
      if ahtIterator == [] {
        return None;
      }
      GroupRowsStep(aht.ht, ahtIterator);
      row := Some(ahtIterator[0] + aht.ht[ahtIterator[0]]);
      ahtIterator := ahtIterator[1..];
      pending := pending[1..];
    }
  }
}
