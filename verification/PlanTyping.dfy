/** Executing a well-formed plan keeps the promise of its schema: every row has the declared types. */
module PlanTyping {
  import opened Sequences
  import opened Types
  import opened Expressions
  import opened Ordering
  import opened RowOperators
  import opened Aggregates
  import opened AggregationTable
  import opened Plans

  lemma KeepTyped(test: Test, rows: seq<Row>, types: seq<TypeId>)
    requires RowsHaveTypes(rows, types)
    ensures RowsHaveTypes(Keep(test, rows), types)
  {
    KeepMembers(test, rows);
  }

  lemma {:induction false} ProjectRowTyped(exprs: seq<Expression>, row: Row, input: seq<TypeId>, output: seq<TypeId>)
    requires ExpressionsTyped(exprs, input, output) && RowHasTypes(row, input)
    ensures RowHasTypes(ProjectRow(exprs, row), output)
    ensures forall i :: 0 <= i < |exprs| ==> exprs[i].Evaluate(row) == Some(ProjectRow(exprs, row)[i])
  {
    if exprs != [] {
      EvaluateIsSound(exprs[0], input, row);
      ProjectRowTyped(exprs[1..], row, input, output[1..]);
    }
  }

  lemma RowsConcat(a: seq<Row>, b: seq<Row>, types: seq<TypeId>)
    requires RowsHaveTypes(a, types) && RowsHaveTypes(b, types)
    ensures RowsHaveTypes(a + b, types)
  {
  }

  lemma JoinWithTyped(l: Row, rs: seq<Row>, left: seq<TypeId>, right: seq<TypeId>)
    requires RowHasTypes(l, left) && RowsHaveTypes(rs, right)
    ensures RowsHaveTypes(JoinWith(l, rs), left + right)
  {
    var out := JoinWith(l, rs);
    forall r | r in out
      ensures RowHasTypes(r, left + right)
    {
      var i :| 0 <= i < |out| && out[i] == r;
      assert rs[i] in rs;
    }
  }

  lemma PaddedTyped(l: Row, left: seq<TypeId>, right: seq<TypeId>)
    requires RowHasTypes(l, left)
    ensures RowsHaveTypes([l + NullRow(right)], left + right)
  {
  }

  lemma {:induction false} NestedLoopTyped(pred: Expression, joinType: JoinType, ls: seq<Row>, rs: seq<Row>,
                                           left: seq<TypeId>, right: seq<TypeId>)
    requires RowsHaveTypes(ls, left) && RowsHaveTypes(rs, right)
    ensures RowsHaveTypes(NestedLoopRows(pred, joinType, right, ls, rs), left + right)
  {
    if ls != [] {
      KeepTyped(MatchTest(pred, ls[0]), rs, right);
      JoinWithTyped(ls[0], Keep(MatchTest(pred, ls[0]), rs), left, right);
      PaddedTyped(ls[0], left, right);
      NestedLoopTyped(pred, joinType, ls[1..], rs, left, right);
      RowsConcat(JoinOne(pred, joinType, right, ls[0], rs), NestedLoopRows(pred, joinType, right, ls[1..], rs),
                 left + right);
    }
  }

  lemma HashJoinOneTyped(spec: HashSpec, l: Row, rs: seq<Row>, left: seq<TypeId>)
    requires RowHasTypes(l, left) && RowsHaveTypes(rs, spec.rightTypes)
    ensures RowsHaveTypes(spec.JoinOne(l, rs), left + spec.rightTypes)
  {
    PaddedTyped(l, left, spec.rightTypes);
    if spec.leftKey.Evaluate(l).Some? {
      var k := spec.leftKey.Evaluate(l).value;
      KeepTyped(HashTest(spec.hash, spec.rightKey, HashValue(spec.hash, k)), rs, spec.rightTypes);
      KeepTyped(KeyTest(spec.rightKey, k), spec.Bucket(k, rs), spec.rightTypes);
      JoinWithTyped(l, Keep(KeyTest(spec.rightKey, k), spec.Bucket(k, rs)), left, spec.rightTypes);
    }
  }

  lemma {:induction false} HashJoinTyped(spec: HashSpec, ls: seq<Row>, rs: seq<Row>, left: seq<TypeId>)
    requires RowsHaveTypes(ls, left) && RowsHaveTypes(rs, spec.rightTypes)
    ensures RowsHaveTypes(spec.JoinRows(ls, rs), left + spec.rightTypes)
  {
    if ls != [] {
      HashJoinOneTyped(spec, ls[0], rs, left);
      HashJoinTyped(spec, ls[1..], rs, left);
      RowsConcat(spec.JoinOne(ls[0], rs), spec.JoinRows(ls[1..], rs), left + spec.rightTypes);
    }
  }

  // ----- Aggregation -----

  predicate IsInput(ty: AggregationType, v: Value) {
    ty in {SumAggregate, MinAggregate, MaxAggregate} ==> v.HasType(INTEGER)
  }

  predicate AllIntegers(values: Row) {
    forall v :: v in values ==> v.HasType(INTEGER)
  }

  lemma CombineTyped(ty: AggregationType, acc: Value, input: Value)
    requires acc.HasType(INTEGER) && IsInput(ty, input)
    ensures Combine(ty, acc, input).Some? ==> Combine(ty, acc, input).value.HasType(INTEGER)
  {
  }

  lemma {:induction false} CombineAllTyped(types: seq<AggregationType>, acc: Row, inputs: Row)
    requires |types| == |acc| == |inputs| && AllIntegers(acc)
    requires forall i :: 0 <= i < |types| ==> IsInput(types[i], inputs[i])
    ensures CombineAll(types, acc, inputs).Some? ==> AllIntegers(CombineAll(types, acc, inputs).value)
  {
    if types != [] {
      CombineTyped(types[0], acc[0], inputs[0]);
      CombineAllTyped(types[1..], acc[1..], inputs[1..]);
    }
  }

  predicate InputsTyped(types: seq<AggregationType>, es: seq<Entry>)
    requires EntriesFit(types, es)
  {
    forall e, i :: e in es && 0 <= i < |types| ==> IsInput(types[i], e.inputs[i])
  }

  lemma {:induction false} TableTyped(types: seq<AggregationType>, es: seq<Entry>)
    requires EntriesFit(types, es) && InputsTyped(types, es) && TableOf(types, es).Some?
    ensures forall k :: k in TableOf(types, es).value ==> AllIntegers(TableOf(types, es).value[k])
  {
    if es != [] {
      var front, last := es[..|es| - 1], es[|es| - 1];
      TableTyped(types, front);
      var t := TableOf(types, front).value;
      assert AllIntegers(Before(types, t, last.key));
      assert last in es;
      CombineAllTyped(types, Before(types, t, last.key), last.inputs);
    }
  }

  /** The group key and the inputs of every row of a well-formed aggregation. */
  lemma EntriesTyped(op: UnaryOp, rows: seq<Row>, input: seq<TypeId>, output: seq<TypeId>)
    requires op.Aggregation? && UnaryTyped(op, input, output) && RowsHaveTypes(rows, input)
    ensures var es := EntriesOf(op.groupBys, op.aggregates, rows);
            && EntriesFit(op.aggTypes, es) && InputsTyped(op.aggTypes, es)
            && forall e :: e in es ==> RowHasTypes(e.key, output[..|op.groupBys|])
  {
    var es := EntriesOf(op.groupBys, op.aggregates, rows);
    forall e | e in es
      ensures |e.inputs| == |op.aggTypes| && RowHasTypes(e.key, output[..|op.groupBys|])
      ensures forall i :: 0 <= i < |op.aggTypes| ==> IsInput(op.aggTypes[i], e.inputs[i])
    {
      var i :| 0 <= i < |es| && es[i] == e;
      assert rows[i] in rows;
      ProjectRowTyped(op.groupBys, rows[i], input, output[..|op.groupBys|]);
      AggregateInputsTyped(op.aggregates, op.aggTypes, rows[i], input);
    }
  }

  lemma AggregateInputsTyped(aggregates: seq<Expression>, aggTypes: seq<AggregationType>, row: Row, input: seq<TypeId>)
    requires AggregatesTyped(aggregates, aggTypes, input) && RowHasTypes(row, input)
    ensures |ProjectRow(aggregates, row)| == |aggTypes|
    ensures forall i :: 0 <= i < |aggTypes| ==> IsInput(aggTypes[i], ProjectRow(aggregates, row)[i])
  {
    var types := seq(|aggregates|, i requires 0 <= i < |aggregates| => aggregates[i].ReturnType());
    ProjectRowTyped(aggregates, row, input, types);
  }

  lemma GroupRowTyped(key: Row, values: Row, types: seq<TypeId>, n: nat)
    requires n <= |types| && RowHasTypes(key, types[..n]) && AllIntegers(values) && |values| == |types| - n
    requires forall i :: n <= i < |types| ==> types[i] == INTEGER
    ensures RowHasTypes(key + values, types)
  {
  }

  lemma GroupRowsTyped(t: Table, order: seq<Row>, types: seq<TypeId>, n: nat)
    requires n <= |types| && forall i :: n <= i < |types| ==> types[i] == INTEGER
    requires forall k :: k in order ==>
                           k in t && RowHasTypes(k, types[..n]) && AllIntegers(t[k]) && |t[k]| == |types| - n
    ensures RowsHaveTypes(GroupRows(t, order), types)
  {
    var out := GroupRows(t, order);
    forall r | r in out
      ensures RowHasTypes(r, types)
    {
      var i :| 0 <= i < |order| && out[i] == r;
      assert order[i] in order;
      GroupRowTyped(order[i], t[order[i]], types, n);
    }
  }

  lemma InitialRowTyped(aggTypes: seq<AggregationType>)
    requires |aggTypes| == 1
    ensures RowHasTypes(InitialValues(aggTypes), [INTEGER])
  {
  }

  lemma TableKeysTyped(types: seq<AggregationType>, es: seq<Entry>, keyTypes: seq<TypeId>)
    requires EntriesFit(types, es) && TableOf(types, es).Some?
    requires forall e :: e in es ==> RowHasTypes(e.key, keyTypes)
    ensures forall k :: k in TableOf(types, es).value ==> RowHasTypes(k, keyTypes)
  {
    TableHasAllKeys(types, es);
  }

  lemma AggregationTyped(op: UnaryOp, schema: Schema, rows: seq<Row>, input: seq<TypeId>, out: Outcome)
    requires op.Aggregation? && UnaryTyped(op, input, TypesOf(schema)) && RowsHaveTypes(rows, input)
    requires AggregationAllows(op, schema, rows, out) && out.Rows?
    ensures RowsHaveTypes(out.rows, TypesOf(schema))
  {
    var es := EntriesOf(op.groupBys, op.aggregates, rows);
    var types, n := TypesOf(schema), |op.groupBys|;
    EntriesTyped(op, rows, input, types);
    var t := TableOf(op.aggTypes, es).value;
    if t == map[] && |schema| == 1 {
      InitialRowTyped(op.aggTypes);
    } else {
      TableTyped(op.aggTypes, es);
      TableKeysTyped(op.aggTypes, es, types[..n]);
      var order :| Enumerates(order, t.Keys) && out.rows == GroupRows(t, order);
      GroupRowsTyped(t, order, types, n);
    }
  }

  // ----- Whole plans -----

  /** Rows without NULL keys are sortable. */
  lemma TypedRowsSortable(orderBys: seq<OrderBy>, rows: seq<Row>, types: seq<TypeId>)
    requires KeysTyped(orderBys, types) && RowsHaveTypes(rows, types) && !AnyNullKey(orderBys, rows)
    ensures AllSortable(orderBys, rows)
  {
    forall r, o | r in rows && o in orderBys
      ensures HasKey(o.expr, r)
    {
      EvaluateIsSound(o.expr, types, r);
    }
  }

  lemma ProjectRowsTyped(exprs: seq<Expression>, rows: seq<Row>, input: seq<TypeId>, output: seq<TypeId>)
    requires ExpressionsTyped(exprs, input, output) && RowsHaveTypes(rows, input)
    ensures RowsHaveTypes(ProjectRows(exprs, rows), output)
  {
    var out := ProjectRows(exprs, rows);
    forall r | r in out
      ensures RowHasTypes(r, output)
    {
      var i :| 0 <= i < |out| && out[i] == r;
      assert rows[i] in rows;
      ProjectRowTyped(exprs, rows[i], input, output);
    }
  }

  lemma SortTyped(orderBys: seq<OrderBy>, sorted: seq<Row>, rows: seq<Row>, types: seq<TypeId>)
    requires IsSortOf(orderBys, sorted, rows) && RowsHaveTypes(rows, types)
    ensures RowsHaveTypes(sorted, types)
  {
    PermutationHasSameMembers(sorted, rows);
  }

  lemma LeafTypedRows(db: Database, op: LeafOp, types: seq<TypeId>)
    requires LeafTyped(db, op, types) && TablesTyped(db)
    ensures RowsHaveTypes(LeafRows(db, op), types)
  {
    match op
    case SeqScan(oid, filter) =>
      KeepTyped(ScanTest(filter), db.tables[oid].rows, types);
    case Values(values) =>
      forall i | 0 <= i < |values|
        ensures RowHasTypes(ProjectRow(values[i], []), types)
      {
        assert values[i] in values;
        ProjectRowTyped(values[i], [], [], types);
      }
  }

  lemma UnaryTypedRows(op: UnaryOp, schema: Schema, rows: seq<Row>, input: seq<TypeId>, out: Outcome)
    requires UnaryTyped(op, input, TypesOf(schema)) && RowsHaveTypes(rows, input)
    requires UnaryAllows(op, schema, rows, out) && out.Rows?
    ensures RowsHaveTypes(out.rows, TypesOf(schema))
  {
    match op
    case Filter(pred) => KeepTyped(FilterTest(pred), rows, input);
    case Projection(exprs) => ProjectRowsTyped(exprs, rows, input, TypesOf(schema));
    case Aggregation(_, _, _) => AggregationTyped(op, schema, rows, input, out);
    case Sort(orderBys) => SortTyped(orderBys, out.rows, rows, input);
    case Limit(_) =>
    case TopN(orderBys, n) =>
      var s :| IsSortOf(orderBys, s, rows) && out.rows == s[..Min(n, |s|)];
      SortTyped(orderBys, s, rows, input);
  }

  lemma JoinTypedRows(db: Database, op: JoinOp, left: seq<TypeId>, right: seq<TypeId>, ls: seq<Row>, rs: seq<Row>)
    requires RowsHaveTypes(ls, left) && RowsHaveTypes(rs, right)
    ensures RowsHaveTypes(JoinedRows(db, op, right, ls, rs), left + right)
  {
    match op
    case NestedLoopJoin(pred, joinType) => NestedLoopTyped(pred, joinType, ls, rs, left, right);
    case HashJoin(lk, rk, joinType) => HashJoinTyped(HashSpec(db.hash, lk, rk, joinType, right), ls, rs, left);
  }

  /** Every row a well-formed plan may produce has the types of the plan's schema. */
  lemma {:induction false} OutcomesAreTyped(db: Database, p: Plan, out: Outcome)
    requires WellFormed(db, p) && TablesTyped(db) && Allowed(db, p, out) && out.Rows?
    ensures RowsHaveTypes(out.rows, p.Types())
  {
    match p
    case Leaf(schema, op) => LeafTypedRows(db, op, p.Types());
    case Unary(schema, op, child) =>
      var c :| Allowed(db, child, c) && if c.Rows? then UnaryAllows(op, schema, c.rows, out) else out == c;
      OutcomesAreTyped(db, child, c);
      UnaryTypedRows(op, schema, c.rows, child.Types(), out);
    case Join(_, op, left, right) =>
      var l, r :| Allowed(db, left, l) && Allowed(db, right, r) && out == JoinOutcome(db, op, right.Types(), l, r);
      OutcomesAreTyped(db, left, l);
      OutcomesAreTyped(db, right, r);
      JoinTypedRows(db, op, left.Types(), right.Types(), l.rows, r.rows);
  }

  // ----- Every well-formed plan has an outcome -----

  lemma {:induction false} KeysCanBeEnumerated(keys: set<Row>) returns (order: seq<Row>)
    ensures Enumerates(order, keys)
  {
    if keys == {} {
      order := [];
    } else {
      var k :| k in keys;
      var rest := KeysCanBeEnumerated(keys - {k});
      order := rest + [k];
    }
  }

  lemma AggregationHasOutcome(op: UnaryOp, schema: Schema, rows: seq<Row>) returns (out: Outcome)
    requires op.Aggregation?
    ensures AggregationAllows(op, schema, rows, out)
  {
    var es := EntriesOf(op.groupBys, op.aggregates, rows);
    if SomeNullKey(es) || !EntriesFit(op.aggTypes, es) {
      out := Undefined;
    } else if TableOf(op.aggTypes, es).None? {
      out := Throws;
    } else {
      var t := TableOf(op.aggTypes, es).value;
      if t == map[] && |schema| == 1 {
        out := if |op.aggTypes| == 1 then Rows([InitialValues(op.aggTypes)]) else Undefined;
      } else {
        var order := KeysCanBeEnumerated(t.Keys);
        out := Rows(GroupRows(t, order));
      }
    }
  }

  lemma UnaryHasOutcome(op: UnaryOp, schema: Schema, rows: seq<Row>, input: seq<TypeId>) returns (out: Outcome)
    requires UnaryTyped(op, input, TypesOf(schema)) && RowsHaveTypes(rows, input)
    ensures UnaryAllows(op, schema, rows, out)
  {
    match op
    case Filter(pred) => out := Rows(FilterRows(pred, rows));
    case Projection(exprs) => out := Rows(ProjectRows(exprs, rows));
    case Aggregation(_, _, _) => out := AggregationHasOutcome(op, schema, rows);
    case Limit(n) => out := Rows(rows[..Min(n, |rows|)]);
    case Sort(orderBys) =>
      if AnyNullKey(orderBys, rows) {
        out := Undefined;
      } else {
        TypedRowsSortable(orderBys, rows, input);
        SortRowsSorts(orderBys, rows);
        out := Rows(SortRows(orderBys, rows));
      }
    case TopN(orderBys, n) =>
      if AnyNullKey(orderBys, rows) {
        out := Undefined;
      } else {
        TypedRowsSortable(orderBys, rows, input);
        SortRowsSorts(orderBys, rows);
        var s := SortRows(orderBys, rows);
        out := Rows(s[..Min(n, |s|)]);
      }
  }

  lemma {:induction false} PlanHasOutcome(db: Database, p: Plan) returns (out: Outcome)
    requires WellFormed(db, p) && TablesTyped(db)
    ensures Allowed(db, p, out)
  {
    match p
    case Leaf(_, op) => out := Rows(LeafRows(db, op));
    case Unary(schema, op, child) =>
      var c := PlanHasOutcome(db, child);
      out := c;
      if c.Rows? {
        OutcomesAreTyped(db, child, c);
        out := UnaryHasOutcome(op, schema, c.rows, child.Types());
      }
    case Join(_, op, left, right) =>
      var l := PlanHasOutcome(db, left);
      var r := PlanHasOutcome(db, right);
      out := JoinOutcome(db, op, right.Types(), l, r);
  }
}
