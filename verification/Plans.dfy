/**
 * Query plans and what executing them may produce. A plan has a set of allowed outcomes rather than
 * one result: sorting leaves ties open, aggregation leaves the order of the groups open.
 */
module Plans {
  import opened Types
  import opened Expressions
  import opened Ordering
  import opened RowOperators
  import opened Aggregates
  import opened AggregationTable

  datatype Column = Column(name: string, ty: TypeId)

  type Schema = seq<Column>

  function TypesOf(schema: Schema): (types: seq<TypeId>)
    ensures |types| == |schema|
    ensures forall i :: 0 <= i < |schema| ==> types[i] == schema[i].ty
  {
    seq(|schema|, i requires 0 <= i < |schema| => schema[i].ty)
  }

  datatype LeafOp =
    | SeqScan(tableOid: nat, filterPredicate: Option<Expression>)
    | Values(values: seq<seq<Expression>>)

  datatype UnaryOp =
    | Filter(pred: Expression)
    | Projection(expressions: seq<Expression>)
    | Aggregation(groupBys: seq<Expression>, aggregates: seq<Expression>, aggTypes: seq<AggregationType>)
    | Sort(orderBys: seq<OrderBy>)
    | Limit(limit: nat)
    | TopN(orderBys: seq<OrderBy>, n: nat)

  datatype JoinOp =
    | NestedLoopJoin(pred: Expression, joinType: JoinType)
    | HashJoin(leftKey: Expression, rightKey: Expression, joinType: JoinType)

  /** A plan node: its output schema, its operator and its children. */
  datatype Plan =
    | Leaf(schema: Schema, leafOp: LeafOp)
    | Unary(schema: Schema, op: UnaryOp, child: Plan)
    | Join(schema: Schema, joinOp: JoinOp, left: Plan, right: Plan)
  {
    function Types(): seq<TypeId> {
      TypesOf(schema)
    }
  }

  datatype TableData = TableData(types: seq<TypeId>, rows: seq<Row>)

  /** The tables, and the hash function of the hash joins. */
  datatype Database = Database(tables: seq<TableData>, hash: HashFunction)

  /** How an execution ends; Undefined where the engine's behaviour is not defined by its code. */
  datatype Outcome = Rows(rows: seq<Row>) | Throws | Undefined

  // ----- The operators -----

  function ValueRows(values: seq<seq<Expression>>): (out: seq<Row>)
    ensures |out| == |values|
    ensures forall i :: 0 <= i < |values| ==> out[i] == ProjectRow(values[i], [])
  {
    seq(|values|, i requires 0 <= i < |values| => ProjectRow(values[i], []))
  }

  function LeafRows(db: Database, op: LeafOp): seq<Row> {
    match op
    case SeqScan(oid, filter) => if oid < |db.tables| then ScanRows(filter, db.tables[oid].rows) else []
    case Values(values) => ValueRows(values)
  }

  /** MakeAggregateKey and MakeAggregateValue for each row. */
  function EntriesOf(groupBys: seq<Expression>, aggregates: seq<Expression>, rows: seq<Row>): (es: seq<Entry>)
    ensures |es| == |rows|
    ensures forall i :: 0 <= i < |rows| ==>
                          es[i] == Entry(ProjectRow(groupBys, rows[i]), ProjectRow(aggregates, rows[i]))
  {
    seq(|rows|, i requires 0 <= i < |rows| => Entry(ProjectRow(groupBys, rows[i]), ProjectRow(aggregates, rows[i])))
  }

  ghost predicate Enumerates(order: seq<Row>, keys: set<Row>) {
    (forall k :: k in order <==> k in keys) && forall i, j :: 0 <= i < j < |order| ==> order[i] != order[j]
  }

  /** Key and aggregate values of each group, in the given order of the keys. */
  function GroupRows(t: Table, order: seq<Row>): (out: seq<Row>)
    requires forall k :: k in order ==> k in t
    ensures |out| == |order|
    ensures forall i :: 0 <= i < |order| ==> out[i] == order[i] + t[order[i]]
  {
    seq(|order|, i requires 0 <= i < |order| => order[i] + t[order[i]])
  }

  /** The groups in some order; nothing prescribes which. */
  ghost predicate ListsGroups(t: Table, rows: seq<Row>) {
    exists order :: Enumerates(order, t.Keys) && rows == GroupRows(t, order)
  }

  /** Group keys with NULLs do not equal themselves, and corrupt the hash table. */
  predicate SomeNullKey(es: seq<Entry>) {
    exists e :: e in es && HasNull(e.key)
  }

  ghost predicate AggregationAllows(op: UnaryOp, schema: Schema, rows: seq<Row>, out: Outcome)
    requires op.Aggregation?
  {
    var es := EntriesOf(op.groupBys, op.aggregates, rows);
    if SomeNullKey(es) || !EntriesFit(op.aggTypes, es) then out == Undefined
    else
      match TableOf(op.aggTypes, es)
      case None => out == Throws
      case Some(t) =>
        // Without any row and with a single output column the table gets one entry with an empty
        // key, which is a row of that width only if the column is an aggregate.
        if t == map[] && |schema| == 1 then
          out == if |op.aggTypes| == 1 then Rows([InitialValues(op.aggTypes)]) else Undefined
        else
          out.Rows? && ListsGroups(t, out.rows)
  }

  predicate AnyNullKey(orderBys: seq<OrderBy>, rows: seq<Row>) {
    exists r :: r in rows && NullKey(orderBys, r)
  }

  /** The outcomes of an operator on the rows of its child. */
  ghost predicate UnaryAllows(op: UnaryOp, schema: Schema, rows: seq<Row>, out: Outcome) {
    match op
    case Filter(pred) => out == Rows(FilterRows(pred, rows))
    case Projection(exprs) => out == Rows(ProjectRows(exprs, rows))
    case Aggregation(_, _, _) => AggregationAllows(op, schema, rows, out)
    case Sort(orderBys) =>
      if AnyNullKey(orderBys, rows) then out == Undefined else out.Rows? && IsSortOf(orderBys, out.rows, rows)
    case Limit(n) => out == Rows(rows[..Min(n, |rows|)])
    case TopN(orderBys, n) =>
      if AnyNullKey(orderBys, rows) then out == Undefined else out.Rows? && IsTopN(orderBys, n, out.rows, rows)
  }

  function JoinedRows(db: Database, op: JoinOp, rightTypes: seq<TypeId>, ls: seq<Row>, rs: seq<Row>): seq<Row> {
    match op
    case NestedLoopJoin(pred, joinType) => NestedLoopRows(pred, joinType, rightTypes, ls, rs)
    case HashJoin(lk, rk, joinType) => HashSpec(db.hash, lk, rk, joinType, rightTypes).JoinRows(ls, rs)
  }

  /** Both children are initialised, the left one first, before any row is produced. */
  function JoinOutcome(db: Database, op: JoinOp, rightTypes: seq<TypeId>, l: Outcome, r: Outcome): Outcome {
    if !l.Rows? then l else if !r.Rows? then r else Rows(JoinedRows(db, op, rightTypes, l.rows, r.rows))
  }

  /** The outcomes of executing a plan. A failure of a child happens while it is initialised, and is passed on. */
  ghost predicate Allowed(db: Database, p: Plan, out: Outcome) {
    match p
    case Leaf(_, op) => out == Rows(LeafRows(db, op))
    case Unary(schema, op, child) =>
      exists c :: Allowed(db, child, c) && if c.Rows? then UnaryAllows(op, schema, c.rows, out) else out == c
    case Join(_, op, left, right) =>
      exists l, r :: Allowed(db, left, l) && Allowed(db, right, r) && out == JoinOutcome(db, op, right.Types(), l, r)
  }

  lemma UnaryAllowed(db: Database, p: Plan, rows: seq<Row>, out: Outcome)
    requires p.Unary? && Allowed(db, p.child, Rows(rows)) && UnaryAllows(p.op, p.schema, rows, out)
    ensures Allowed(db, p, out)
  {
  }

  lemma ChildFails(db: Database, p: Plan, out: Outcome)
    requires p.Unary? && Allowed(db, p.child, out) && !out.Rows?
    ensures Allowed(db, p, out)
  {
  }

  /** No outcome but rows. */
  ghost predicate Safe(db: Database, p: Plan) {
    forall out :: Allowed(db, p, out) ==> out.Rows?
  }

  // ----- Well-formed plans -----

  predicate ExpressionsTyped(exprs: seq<Expression>, input: seq<TypeId>, output: seq<TypeId>) {
    |exprs| == |output|
    && forall i :: 0 <= i < |exprs| ==> Typed(exprs[i], input, []) && exprs[i].ReturnType() == output[i]
  }

  predicate LeafTyped(db: Database, op: LeafOp, types: seq<TypeId>) {
    match op
    case SeqScan(oid, filter) =>
      oid < |db.tables| && db.tables[oid].types == types && (filter.Some? ==> Typed(filter.value, types, []))
    case Values(values) => forall v :: v in values ==> ExpressionsTyped(v, [], types)
  }

  predicate KeysTyped(orderBys: seq<OrderBy>, types: seq<TypeId>) {
    forall o :: o in orderBys ==> Typed(o.expr, types, [])
  }

  /** All aggregates yield INTEGER, so that everything but COUNT and COUNT(*) needs INTEGER inputs. */
  predicate AggregatesTyped(aggregates: seq<Expression>, aggTypes: seq<AggregationType>, input: seq<TypeId>) {
    && |aggregates| == |aggTypes|
    && forall i :: 0 <= i < |aggregates| ==>
                     && Typed(aggregates[i], input, [])
                     && (aggTypes[i] in {SumAggregate, MinAggregate, MaxAggregate} ==>
                         aggregates[i].ReturnType() == INTEGER)
  }

  predicate UnaryTyped(op: UnaryOp, input: seq<TypeId>, output: seq<TypeId>) {
    match op
    case Filter(pred) => Typed(pred, input, []) && output == input
    case Projection(exprs) => ExpressionsTyped(exprs, input, output)
    case Aggregation(groupBys, aggregates, aggTypes) =>
      && |output| == |groupBys| + |aggTypes|
      && ExpressionsTyped(groupBys, input, output[..|groupBys|])
      && AggregatesTyped(aggregates, aggTypes, input)
      && forall i :: |groupBys| <= i < |output| ==> output[i] == INTEGER
    case Sort(orderBys) => KeysTyped(orderBys, input) && output == input
    case Limit(_) => output == input
    case TopN(orderBys, _) => KeysTyped(orderBys, input) && output == input
  }

  predicate JoinTyped(op: JoinOp, left: seq<TypeId>, right: seq<TypeId>, output: seq<TypeId>) {
    && output == left + right
    && match op
       case NestedLoopJoin(pred, _) => Typed(pred, left, right)
       case HashJoin(lk, rk, _) =>
         Typed(lk, left, []) && Typed(rk, right, []) && Comparable(lk.ReturnType(), rk.ReturnType())
  }

  /** Every node's schema has the types its operator produces; column names are free. */
  predicate WellFormed(db: Database, p: Plan) {
    match p
    case Leaf(schema, op) => LeafTyped(db, op, TypesOf(schema))
    case Unary(schema, op, child) => WellFormed(db, child) && UnaryTyped(op, child.Types(), TypesOf(schema))
    case Join(schema, op, left, right) =>
      WellFormed(db, left) && WellFormed(db, right) && JoinTyped(op, left.Types(), right.Types(), TypesOf(schema))
  }

  predicate RowsHaveTypes(rows: seq<Row>, types: seq<TypeId>) {
    forall r :: r in rows ==> RowHasTypes(r, types)
  }

  predicate TablesTyped(db: Database) {
    forall t :: t in db.tables ==> RowsHaveTypes(t.rows, t.types)
  }
}
