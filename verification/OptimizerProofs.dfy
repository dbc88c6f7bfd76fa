/** The optimizer only narrows what a plan may produce, and keeps the types of every node's rows. */
module OptimizerProofs {
  import opened Types
  import opened Expressions
  import opened Ordering
  import opened RowOperators
  import opened Plans
  import opened PlanTyping
  import opened Optimizer

  /** Executing `q` ends, with rows of the same types or with an exception, only as executing `p` may end. */
  ghost predicate Narrows(db: Database, q: Plan, p: Plan) {
    && q.Types() == p.Types()
    && forall out :: Allowed(db, q, out) ==> Allowed(db, p, out)
  }

  /** Executing `q` may yield exactly the rows that executing `p` may yield, and fails only as `p` may. */
  ghost predicate Refines(db: Database, q: Plan, p: Plan) {
    Narrows(db, q, p) && forall rows :: Allowed(db, p, Rows(rows)) ==> Allowed(db, q, Rows(rows))
  }

  /** Executing either of the plans ends as executing the other may end. */
  ghost predicate Equivalent(db: Database, q: Plan, p: Plan) {
    Narrows(db, q, p) && Narrows(db, p, q)
  }

  // ----- Optimizing children -----

  lemma NarrowChild(db: Database, p: Plan, c: Plan)
    requires p.Unary? && Narrows(db, c, p.child)
    ensures Narrows(db, p.(child := c), p)
  {
    var q := p.(child := c);
    forall out | Allowed(db, q, out)
      ensures Allowed(db, p, out)
    {
      var o :| Allowed(db, c, o) && if o.Rows? then UnaryAllows(p.op, p.schema, o.rows, out) else out == o;
      assert Allowed(db, p.child, o);
    }
  }

  lemma NarrowChildren(db: Database, p: Plan, l: Plan, r: Plan)
    requires p.Join? && Narrows(db, l, p.left) && Narrows(db, r, p.right)
    ensures Narrows(db, p.(left := l, right := r), p)
  {
    var q := p.(left := l, right := r);
    forall out | Allowed(db, q, out)
      ensures Allowed(db, p, out)
    {
      var x, y :| Allowed(db, l, x) && Allowed(db, r, y) && out == JoinOutcome(db, p.joinOp, r.Types(), x, y);
      assert Allowed(db, p.left, x) && Allowed(db, p.right, y);
    }
  }

  lemma RefineChild(db: Database, p: Plan, c: Plan)
    requires p.Unary? && Refines(db, c, p.child)
    ensures Refines(db, p.(child := c), p)
  {
    NarrowChild(db, p, c);
    forall rows | Allowed(db, p, Rows(rows))
      ensures Allowed(db, p.(child := c), Rows(rows))
    {
      var o :| Allowed(db, p.child, o)
               && if o.Rows? then UnaryAllows(p.op, p.schema, o.rows, Rows(rows)) else Rows(rows) == o;
      assert Allowed(db, c, Rows(o.rows));
    }
  }

  lemma RefineChildren(db: Database, p: Plan, l: Plan, r: Plan)
    requires p.Join? && Refines(db, l, p.left) && Refines(db, r, p.right)
    ensures Refines(db, p.(left := l, right := r), p)
  {
    NarrowChildren(db, p, l, r);
    forall rows | Allowed(db, p, Rows(rows))
      ensures Allowed(db, p.(left := l, right := r), Rows(rows))
    {
      var x, y :| Allowed(db, p.left, x) && Allowed(db, p.right, y)
                  && Rows(rows) == JoinOutcome(db, p.joinOp, p.right.Types(), x, y);
      assert Allowed(db, l, Rows(x.rows)) && Allowed(db, r, Rows(y.rows));
    }
  }

  lemma RefinesTransitive(db: Database, r: Plan, q: Plan, p: Plan)
    requires Refines(db, r, q) && Refines(db, q, p)
    ensures Refines(db, r, p)
  {
  }

  // ----- Each rule at the root -----

  /** The schema's names do not matter to the outcomes. */
  lemma RenamingKeepsOutcomes(db: Database, p: Plan, schema: Schema, out: Outcome)
    requires |schema| == |p.schema|
    ensures Allowed(db, p.(schema := schema), out) <==> Allowed(db, p, out)
  {
    if p.Unary? {
      forall rows
        ensures UnaryAllows(p.op, schema, rows, out) <==> UnaryAllows(p.op, p.schema, rows, out)
      {
      }
    }
  }

  lemma {:induction false} IdentityProjectsRow(exprs: seq<Expression>, i: nat, row: Row)
    requires i <= |exprs| == |row|
    requires forall j :: i <= j < |exprs| ==> exprs[j].ColumnValue? && exprs[j].colIdx == j
    ensures ProjectRow(exprs[i..], row) == row[i..]
    decreases |exprs| - i
  {
    if i < |exprs| {
      IdentityProjectsRow(exprs, i + 1, row);
      assert exprs[i..][1..] == exprs[i + 1..];
      assert row[i..] == [row[i]] + row[i + 1..];
    }
  }

  lemma IdentityProjectsRows(exprs: seq<Expression>, rows: seq<Row>, types: seq<TypeId>)
    requires RowsHaveTypes(rows, types) && |exprs| == |types| && IsIdentity(exprs, types, types)
    ensures ProjectRows(exprs, rows) == rows
  {
    forall i | 0 <= i < |rows|
      ensures ProjectRow(exprs, rows[i]) == rows[i]
    {
      assert rows[i] in rows;
      IdentityProjectsRow(exprs, 0, rows[i]);
      assert exprs[0..] == exprs && rows[i][0..] == rows[i];
    }
  }

  /** The outcomes of an identity projection are those of its child. */
  lemma IdentityOutcome(db: Database, p: Plan, out: Outcome)
    requires WellFormed(db, p) && TablesTyped(db)
    requires p.Unary? && p.op.Projection? && IsIdentity(p.op.expressions, p.Types(), p.child.Types())
    ensures Allowed(db, p.child, out) <==> Allowed(db, p, out)
  {
    forall c | Allowed(db, p.child, c) && c.Rows?
      ensures ProjectRows(p.op.expressions, c.rows) == c.rows
    {
      OutcomesAreTyped(db, p.child, c);
      IdentityProjectsRows(p.op.expressions, c.rows, p.child.Types());
    }
    if Allowed(db, p.child, out) {
      assert if out.Rows? then UnaryAllows(p.op, p.schema, out.rows, out) else out == out;
    }
  }

  lemma MergeProjectionRefines(db: Database, p: Plan)
    requires WellFormed(db, p) && TablesTyped(db)
    requires p.Unary? && p.op.Projection? && IsIdentity(p.op.expressions, p.Types(), p.child.Types())
    ensures Equivalent(db, p.child.(schema := p.schema), p)
  {
    forall out
      ensures Allowed(db, p.child.(schema := p.schema), out) <==> Allowed(db, p, out)
    {
      RenamingKeepsOutcomes(db, p.child, p.schema, out);
      IdentityOutcome(db, p, out);
    }
  }

  lemma MergeFilterScanRefines(db: Database, p: Plan)
    requires WellFormed(db, p) && RulesApply(db, p)
    requires p.Unary? && p.op.Filter? && p.child.Leaf? && p.child.leafOp.SeqScan?
             && p.child.leafOp.filterPredicate.None?
    ensures Equivalent(db, Leaf(p.schema, SeqScan(p.child.leafOp.tableOid, Some(p.op.pred))), p)
  {
    var rows := db.tables[p.child.leafOp.tableOid].rows;
    KeepAll(ScanTest(None), rows);
    MergedScanIsFilterIff(p.op.pred, rows);
    assert Allowed(db, p.child, Rows(rows));
  }

  lemma TypedWidth(rows: seq<Row>, types: seq<TypeId>)
    requires RowsHaveTypes(rows, types)
    ensures HasWidth(|types|, rows)
  {
  }

  lemma OutcomesHaveWidth(db: Database, p: Plan, out: Outcome)
    requires WellFormed(db, p) && TablesTyped(db) && Allowed(db, p, out)
    ensures out.Rows? ==> HasWidth(|p.Types()|, out.rows)
  {
    if out.Rows? {
      OutcomesAreTyped(db, p, out);
      TypedWidth(out.rows, p.Types());
    }
  }

  /** A typed predicate that MergeFilterNLJ takes for true is the constant true or the constant NULL. */
  lemma TrueJoinIsConstant(p: Plan)
    requires IsTrueJoin(p) && Typed(p.joinOp.pred, p.left.Types(), p.right.Types())
    ensures ConstantJoin(p.joinOp.pred)
  {
    GetAsBoolVersusIsTrue(p.joinOp.pred.val);
  }

  /** The filter's predicate can be rewritten, and the merged join is typed. */
  lemma MergeFilterNLJFires(db: Database, p: Plan)
    requires WellFormed(db, p) && p.Unary? && p.op.Filter? && IsTrueJoin(p.child)
    ensures ConstantJoin(p.child.joinOp.pred)
    ensures MergeFilterNLJAtRoot(p) == Some(FilteredJoin(p, p.child)) && FilteredJoin(p, p.child).Join?
    ensures var e := RewriteForJoin(p.op.pred, |p.child.left.Types()|, |p.child.right.Types()|);
            e.Some? && Typed(e.value, p.child.left.Types(), p.child.right.Types())
            && FilteredJoin(p, p.child).joinOp == NestedLoopJoin(e.value, p.child.joinOp.joinType)
  {
    TrueJoinIsConstant(p.child);
    RewritePreservesTypes(p.op.pred, p.child.left.Types(), p.child.right.Types());
  }

  function Filtered(pred: Expression, o: Outcome): Outcome {
    if o.Rows? then Rows(FilterRows(pred, o.rows)) else o
  }

  lemma FilteredOutcomeAllowed(db: Database, p: Plan, o: Outcome)
    requires p.Unary? && p.op.Filter? && Allowed(db, p.child, o)
    ensures Allowed(db, p, Filtered(p.op.pred, o))
  {
  }

  lemma OutcomeIsFiltered(db: Database, p: Plan, out: Outcome) returns (o: Outcome)
    requires p.Unary? && p.op.Filter? && Allowed(db, p, out)
    ensures Allowed(db, p.child, o) && out == Filtered(p.op.pred, o)
  {
    o :| Allowed(db, p.child, o) && if o.Rows? then UnaryAllows(p.op, p.schema, o.rows, out) else out == o;
  }

  lemma InputsOfJoin(db: Database, p: Plan, out: Outcome) returns (l: Outcome, r: Outcome)
    requires p.Join? && Allowed(db, p, out)
    ensures Allowed(db, p.left, l) && Allowed(db, p.right, r)
    ensures out == JoinOutcome(db, p.joinOp, p.right.Types(), l, r)
  {
    l, r :| Allowed(db, p.left, l) && Allowed(db, p.right, r)
      && out == JoinOutcome(db, p.joinOp, p.right.Types(), l, r);
  }

  lemma JoinOutcomeAllowed(db: Database, p: Plan, l: Outcome, r: Outcome)
    requires p.Join? && Allowed(db, p.left, l) && Allowed(db, p.right, r)
    ensures Allowed(db, p, JoinOutcome(db, p.joinOp, p.right.Types(), l, r))
  {
  }

  lemma FilteredJoinRows(db: Database, pred: Expression, op: JoinOp, joined: Expression, types: seq<TypeId>,
                         l: seq<Row>, r: seq<Row>, m: nat)
    requires op.NestedLoopJoin? && ConstantJoin(op.pred) && HasWidth(m, l) && HasWidth(|types|, r)
    requires RewriteForJoin(pred, m, |types|) == Some(joined)
    requires MergeAgreesAll(pred, op.pred, op.joinType, types, l, r)
    ensures JoinedRows(db, NestedLoopJoin(joined, op.joinType), types, l, r)
         == FilterRows(pred, JoinedRows(db, op, types, l, r))
  {
    RewriteSucceedsIff(pred, m, |types|);
    FilterOverJoinIff(pred, op.pred, op.joinType, types, l, r, m);
  }

  lemma JoinWidths(db: Database, p: Plan, l: seq<Row>, r: seq<Row>)
    requires p.Join? && WellFormed(db, p) && TablesTyped(db)
    requires Allowed(db, p.left, Rows(l)) && Allowed(db, p.right, Rows(r))
    ensures HasWidth(|p.left.Types()|, l) && HasWidth(|p.right.Types()|, r)
  {
    OutcomesHaveWidth(db, p.left, Rows(l));
    OutcomesHaveWidth(db, p.right, Rows(r));
  }

  lemma RowsAgree(db: Database, pred: Expression, join: Plan, l: seq<Row>, r: seq<Row>)
    requires IsTrueJoin(join) && MergeAgreesOn(db, pred, join)
    requires Allowed(db, join.left, Rows(l)) && Allowed(db, join.right, Rows(r))
    ensures MergeAgreesAll(pred, join.joinOp.pred, join.joinOp.joinType, join.right.Types(), l, r)
  {
  }

  /** Filtering an outcome of the original join gives the corresponding outcome of the merged one. */
  lemma MergedOutcome(db: Database, p: Plan, q: Plan, l: Outcome, r: Outcome)
    requires WellFormed(db, p) && TablesTyped(db) && p.Unary? && p.op.Filter? && IsTrueJoin(p.child)
    requires MergeAgreesOn(db, p.op.pred, p.child) && Allowed(db, p.child.left, l) && Allowed(db, p.child.right, r)
    requires q == FilteredJoin(p, p.child)
    ensures q.Join?
    ensures JoinOutcome(db, q.joinOp, p.child.right.Types(), l, r)
         == Filtered(p.op.pred, JoinOutcome(db, p.child.joinOp, p.child.right.Types(), l, r))
  {
    var c := p.child;
    MergeFilterNLJFires(db, p);
    if l.Rows? && r.Rows? {
      JoinWidths(db, c, l.rows, r.rows);
      RowsAgree(db, p.op.pred, c, l.rows, r.rows);
      FilteredJoinRows(db, p.op.pred, c.joinOp, q.joinOp.pred, c.right.Types(), l.rows, r.rows, |c.left.Types()|);
    }
  }

  lemma MergeFilterNLJRefines(db: Database, p: Plan)
    requires WellFormed(db, p) && TablesTyped(db) && RulesApply(db, p)
    requires p.Unary? && p.op.Filter? && IsTrueJoin(p.child)
    ensures MergeFilterNLJAtRoot(p).Some? && Equivalent(db, MergeFilterNLJAtRoot(p).value, p)
  {
    MergeFilterNLJFires(db, p);
    var q := FilteredJoin(p, p.child);
    forall out | Allowed(db, q, out)
      ensures Allowed(db, p, out)
    {
      var l, r := InputsOfJoin(db, q, out);
      MergedOutcome(db, p, q, l, r);
      JoinOutcomeAllowed(db, p.child, l, r);
      FilteredOutcomeAllowed(db, p, JoinOutcome(db, p.child.joinOp, p.child.right.Types(), l, r));
    }
    forall out | Allowed(db, p, out)
      ensures Allowed(db, q, out)
    {
      var o := OutcomeIsFiltered(db, p, out);
      var l, r := InputsOfJoin(db, p.child, o);
      MergedOutcome(db, p, q, l, r);
      JoinOutcomeAllowed(db, q, l, r);
    }
  }

  lemma FalsePredicateNeverHolds(pred: Expression, row: Row)
    requires IsPredicateFalse(pred) == Some(true)
    ensures !Passes(pred.Evaluate(row))
  {
    var x, y := pred.left.val, pred.right.val;
    assert pred.Evaluate(row) == Comparison(Equal).Apply(x, y);
  }

  lemma FalseFilterOutcome(db: Database, p: Plan, rows: seq<Row>, out: Outcome)
    requires p.Unary? && p.op.Filter? && IsPredicateFalse(p.op.pred) == Some(true)
    ensures UnaryAllows(p.op, p.schema, rows, out) <==> out == Rows([])
  {
    forall r
      ensures !FilterTest(p.op.pred)(r)
    {
      FalsePredicateNeverHolds(p.op.pred, r);
    }
    KeepNone(FilterTest(p.op.pred), rows);
  }

  /** A filter that never holds may yield no rows, where its child may yield any, and no other rows. */
  lemma FalseFilterRows(db: Database, p: Plan, rows: seq<Row>)
    requires p.Unary? && p.op.Filter? && IsPredicateFalse(p.op.pred) == Some(true)
    ensures Allowed(db, p, Rows(rows)) <==> rows == [] && exists c :: Allowed(db, p.child, Rows(c))
  {
    if Allowed(db, p, Rows(rows)) {
      var o := OutcomeIsFiltered(db, p, Rows(rows));
      FalseFilterOutcome(db, p, o.rows, Rows(rows));
      assert Allowed(db, p.child, Rows(o.rows));
    }
    if c :| Allowed(db, p.child, Rows(c)) {
      FalseFilterOutcome(db, p, c, Rows([]));
      UnaryAllowed(db, p, c, Rows([]));
    }
  }

  lemma ValuesRows(db: Database, schema: Schema, out: Outcome)
    ensures Allowed(db, Leaf(schema, Values([])), out) <==> out == Rows([])
  {
    assert LeafRows(db, Values([])) == [];
  }

  /** Dropping a filter that never holds, and its child, is right exactly if the child may yield rows at all. */
  lemma FalseFilterRefinesIff(db: Database, p: Plan)
    requires p.Unary? && p.op.Filter? && IsPredicateFalse(p.op.pred) == Some(true) && p.Types() == p.child.Types()
    ensures Refines(db, Leaf(p.child.schema, Values([])), p) <==> exists rows :: Allowed(db, p.child, Rows(rows))
  {
    var q := Leaf(p.child.schema, Values([]));
    ValuesRows(db, p.child.schema, Rows([]));
    FalseFilterRows(db, p, []);
    assert Refines(db, q, p) ==> Allowed(db, p, Rows([]));
    forall out | Allowed(db, q, out)
      ensures out == Rows([])
    {
      ValuesRows(db, p.child.schema, out);
    }
    forall rows | Allowed(db, p, Rows(rows))
      ensures rows == []
    {
      FalseFilterRows(db, p, rows);
    }
  }

  lemma FalseFilterRefines(db: Database, p: Plan)
    requires WellFormed(db, p) && TablesTyped(db) && RulesApply(db, p)
    requires p.Unary? && p.op.Filter? && IsPredicateFalse(p.op.pred) == Some(true)
    ensures Refines(db, Leaf(p.child.schema, Values([])), p)
  {
    FalseFilterRefinesIff(db, p);
  }

  /** Hashing a join on a column equality keeps its rows, for left joins because no bucket misleads a left row. */
  lemma HashedJoinRows(db: Database, p: Plan, ls: seq<Row>, rs: seq<Row>)
    requires WellFormed(db, p)
    requires p.Join? && p.joinOp.NestedLoopJoin? && IsColumnEquality(p.joinOp.pred)
    requires HashedLeftJoinOk(db, p.joinOp, p.left, p.right)
    requires RowsHaveTypes(ls, p.left.Types()) && Allowed(db, p.left, Rows(ls)) && Allowed(db, p.right, Rows(rs))
    ensures JoinedRows(db, NLJAsHashJoinAtRoot(p).joinOp, p.right.Types(), ls, rs)
         == JoinedRows(db, p.joinOp, p.right.Types(), ls, rs)
  {
    TypedWidth(ls, p.left.Types());
    var pred := p.joinOp.pred;
    assert Typed(pred.left, p.left.Types(), p.right.Types()) && Typed(pred.right, p.left.Types(), p.right.Types());
    if p.joinOp.joinType == INNER {
      EquiJoinOf(pred).InnerHashJoinIsNestedLoop(db.hash, p.right.Types(), ls, rs);
    } else {
      EquiJoinOf(pred).LeftHashJoinIsNestedLoopIff(db.hash, p.right.Types(), ls, rs);
    }
  }

  lemma HashKeysTyped(op: JoinOp, left: seq<TypeId>, right: seq<TypeId>, output: seq<TypeId>)
    requires op.NestedLoopJoin? && IsColumnEquality(op.pred) && JoinTyped(op, left, right, output)
    ensures var e := EquiJoinOf(op.pred);
            JoinTyped(HashJoin(ColumnValue(0, e.a, e.aType), ColumnValue(0, e.b, e.bType), op.joinType), left, right,
                      output)
  {
    assert Typed(op.pred.left, left, right) && Typed(op.pred.right, left, right);
  }

  lemma HashedOutcome(db: Database, p: Plan, l: Outcome, r: Outcome)
    requires WellFormed(db, p) && TablesTyped(db) && RulesApply(db, p)
    requires p.Join? && p.joinOp.NestedLoopJoin? && IsColumnEquality(p.joinOp.pred)
    requires Allowed(db, p.left, l) && Allowed(db, p.right, r)
    ensures JoinOutcome(db, NLJAsHashJoinAtRoot(p).joinOp, p.right.Types(), l, r)
         == JoinOutcome(db, p.joinOp, p.right.Types(), l, r)
  {
    if l.Rows? && r.Rows? {
      OutcomesAreTyped(db, p.left, l);
      HashedJoinRows(db, p, l.rows, r.rows);
    }
  }

  lemma NLJAsHashJoinRefines(db: Database, p: Plan)
    requires WellFormed(db, p) && TablesTyped(db) && RulesApply(db, p)
    requires p.Join? && p.joinOp.NestedLoopJoin? && IsColumnEquality(p.joinOp.pred)
    ensures Equivalent(db, NLJAsHashJoinAtRoot(p), p)
  {
    var q := NLJAsHashJoinAtRoot(p);
    forall out | Allowed(db, q, out)
      ensures Allowed(db, p, out)
    {
      var l, r := InputsOfJoin(db, q, out);
      HashedOutcome(db, p, l, r);
      JoinOutcomeAllowed(db, p, l, r);
    }
    forall out | Allowed(db, p, out)
      ensures Allowed(db, q, out)
    {
      var l, r := InputsOfJoin(db, p, out);
      HashedOutcome(db, p, l, r);
      JoinOutcomeAllowed(db, q, l, r);
    }
  }

  /** Limit over sort and top-N make the same of the same rows. */
  lemma LimitOfSortIsTopN(db: Database, p: Plan, rows: seq<Row>, out: Outcome)
    requires p.Unary? && p.op.Limit? && p.child.Unary? && p.child.op.Sort?
    ensures UnaryAllows(TopN(p.child.op.orderBys, p.op.limit), p.schema, rows, out) <==>
            exists o :: UnaryAllows(p.child.op, p.child.schema, rows, o)
                        && if o.Rows? then UnaryAllows(p.op, p.schema, o.rows, out) else out == o
  {
    var orderBys, n := p.child.op.orderBys, p.op.limit;
    if AnyNullKey(orderBys, rows) {
      assert UnaryAllows(p.child.op, p.child.schema, rows, Undefined);
    } else {
      if UnaryAllows(TopN(orderBys, n), p.schema, rows, out) {
        var s :| IsSortOf(orderBys, s, rows) && out.rows == s[..Min(n, |s|)];
        assert UnaryAllows(p.child.op, p.child.schema, rows, Rows(s));
      }
    }
  }

  lemma SortLimitAsTopNRefines(db: Database, p: Plan)
    requires p.Unary? && p.op.Limit? && p.child.Unary? && p.child.op.Sort? && p.child.child.Types() == p.Types()
    ensures Equivalent(db, SortLimitAsTopNAtRoot(p), p)
  {
    var q, sort, c := SortLimitAsTopNAtRoot(p), p.child, p.child.child;
    forall out | Allowed(db, q, out)
      ensures Allowed(db, p, out)
    {
      var o :| Allowed(db, c, o) && if o.Rows? then UnaryAllows(q.op, q.schema, o.rows, out) else out == o;
      if o.Rows? {
        LimitOfSortIsTopN(db, p, o.rows, out);
        var s :| UnaryAllows(sort.op, sort.schema, o.rows, s)
                 && if s.Rows? then UnaryAllows(p.op, p.schema, s.rows, out) else out == s;
        UnaryAllowed(db, sort, o.rows, s);
      } else {
        ChildFails(db, sort, o);
      }
    }
    forall out | Allowed(db, p, out)
      ensures Allowed(db, q, out)
    {
      var s :| Allowed(db, sort, s) && if s.Rows? then UnaryAllows(p.op, p.schema, s.rows, out) else out == s;
      var o :| Allowed(db, c, o) && if o.Rows? then UnaryAllows(sort.op, sort.schema, o.rows, s) else s == o;
      if o.Rows? {
        LimitOfSortIsTopN(db, p, o.rows, out);
        UnaryAllowed(db, q, o.rows, out);
      } else {
        ChildFails(db, q, o);
      }
    }
  }

  // ----- Each rule on whole plans -----

  /** What a filter above would be merged into has not appeared by optimizing, and its children refine the old ones. */
  ghost predicate CoreKept(db: Database, before: Plan, after: Plan) {
    && (after.Leaf? && after.leafOp.SeqScan? && after.leafOp.filterPredicate.None? ==>
          before.Leaf? && before.leafOp == after.leafOp)
    && (IsTrueJoin(after) ==>
          IsTrueJoin(before) && before.joinOp == after.joinOp
          && Refines(db, after.left, before.left) && Refines(db, after.right, before.right))
  }

  /** `q` may take the place of `p` in any plan; `exact` says that it also fails where `p` does. */
  ghost predicate Replaces(db: Database, exact: bool, q: Plan, p: Plan) {
    && WellFormed(db, q) && RulesApply(db, q)
    && Refines(db, q, p) && (exact ==> Equivalent(db, q, p))
    && CoreKept(db, Core(p), Core(q))
  }

  lemma CoreKeptReflexive(db: Database, p: Plan)
    ensures CoreKept(db, p, p)
  {
  }

  lemma CoreKeptTransitive(db: Database, p: Plan, q: Plan, r: Plan)
    requires CoreKept(db, p, q) && CoreKept(db, q, r)
    ensures CoreKept(db, p, r)
  {
  }

  lemma HashedLeftJoinCarriesOver(db: Database, op: JoinOp, left: Plan, right: Plan, l: Plan, r: Plan)
    requires HashedLeftJoinOk(db, op, left, right) && Narrows(db, l, left) && Narrows(db, r, right)
    ensures HashedLeftJoinOk(db, op, l, r)
  {
  }

  lemma SameWidths(q: Plan, p: Plan)
    requires q.Types() == p.Types()
    ensures |q.schema| == |p.schema|
  {
  }

  lemma JoinFilterCarriesOver(db: Database, filter: Plan, other: Plan, before: Plan, after: Plan)
    requires filter.Unary? && filter.op.Filter?
    requires other.Unary? && other.op == filter.op && other.schema == filter.schema
    requires JoinFilterOk(db, filter, before) && CoreKept(db, before, after)
    ensures JoinFilterOk(db, other, after)
    ensures IsTrueJoin(after) ==> CoreKept(db, FilteredJoin(filter, before), FilteredJoin(other, after))
  {
    if IsTrueJoin(after) {
      SameWidths(after.left, before.left);
      SameWidths(after.right, before.right);
      var q := FilteredJoin(filter, before);
      if q.Join? {
        HashedLeftJoinCarriesOver(db, q.joinOp, before.left, before.right, after.left, after.right);
      }
    }
  }

  lemma {:induction false} CoreRenamed(db: Database, p: Plan, schema: Schema)
    requires TypesOf(schema) == p.Types()
    ensures CoreKept(db, Core(p), Core(p.(schema := schema)))
  {
  }

  lemma RulesApplyRenamed(db: Database, p: Plan, schema: Schema)
    requires WellFormed(db, p) && RulesApply(db, p) && TypesOf(schema) == p.Types()
    ensures WellFormed(db, p.(schema := schema)) && RulesApply(db, p.(schema := schema))
  {
  }

  lemma MergeProjectionReplaces(db: Database, p: Plan)
    requires WellFormed(db, p) && TablesTyped(db) && RulesApply(db, p)
    ensures Replaces(db, true, MergeProjectionAtRoot(p), p)
  {
    if p.Unary? && p.op.Projection? && IsIdentity(p.op.expressions, p.Types(), p.child.Types()) {
      MergeProjectionRefines(db, p);
      CoreRenamed(db, p.child, p.schema);
      RulesApplyRenamed(db, p.child, p.schema);
      assert Core(p) == Core(p.child);
    }
  }

  lemma MergeFilterNLJReplaces(db: Database, p: Plan)
    requires WellFormed(db, p) && TablesTyped(db) && RulesApply(db, p) && MergeFilterNLJAtRoot(p).Some?
    ensures Replaces(db, true, MergeFilterNLJAtRoot(p).value, p)
  {
    if p.Unary? && p.op.Filter? && IsTrueJoin(p.child) {
      MergeFilterNLJFires(db, p);
      MergeFilterNLJRefines(db, p);
      assert Core(p.child) == p.child && Core(p) == FilteredJoin(p, p.child);
    }
  }

  lemma MergeFilterScanReplaces(db: Database, p: Plan)
    requires WellFormed(db, p) && TablesTyped(db) && RulesApply(db, p)
    ensures Replaces(db, true, MergeFilterScanAtRoot(p), p)
  {
    if MergeFilterScanAtRoot(p) != p {
      MergeFilterScanRefines(db, p);
    }
  }

  lemma FalseFilterReplaces(db: Database, p: Plan)
    requires WellFormed(db, p) && TablesTyped(db) && RulesApply(db, p) && FalseFilterAtRoot(p).Some?
    ensures Replaces(db, false, FalseFilterAtRoot(p).value, p)
  {
    if FalseFilterAtRoot(p).value != p {
      FalseFilterRefines(db, p);
    }
  }

  lemma NLJAsHashJoinReplaces(db: Database, p: Plan)
    requires WellFormed(db, p) && TablesTyped(db) && RulesApply(db, p)
    ensures Replaces(db, true, NLJAsHashJoinAtRoot(p), p)
  {
    if NLJAsHashJoinAtRoot(p) != p {
      HashKeysTyped(p.joinOp, p.left.Types(), p.right.Types(), p.Types());
      NLJAsHashJoinRefines(db, p);
    }
  }

  lemma SortLimitAsTopNReplaces(db: Database, p: Plan)
    requires WellFormed(db, p) && TablesTyped(db) && RulesApply(db, p)
    ensures Replaces(db, true, SortLimitAsTopNAtRoot(p), p)
  {
    if SortLimitAsTopNAtRoot(p) != p {
      SortLimitAsTopNRefines(db, p);
    }
  }

  /** Every rule but FalseFilter keeps all failures. */
  predicate KeepsFailures(rule: Rule) {
    rule != FalseFilter
  }

  lemma AtRootReplaces(rule: Rule, db: Database, p: Plan)
    requires WellFormed(db, p) && TablesTyped(db) && RulesApply(db, p) && AtRoot(rule, p).Some?
    ensures Replaces(db, KeepsFailures(rule), AtRoot(rule, p).value, p)
  {
    match rule
    case MergeProjection => MergeProjectionReplaces(db, p);
    case MergeFilterScan => MergeFilterScanReplaces(db, p);
    case MergeFilterNLJ => MergeFilterNLJReplaces(db, p);
    case FalseFilter => FalseFilterReplaces(db, p);
    case NLJAsHashJoin => NLJAsHashJoinReplaces(db, p);
    case SortLimitAsTopN => SortLimitAsTopNReplaces(db, p);
  }

  lemma FilterCarriesOver(db: Database, p: Plan, c: Plan)
    requires p.Unary? && p.op.Filter? && FilterOk(db, p)
    requires Refines(db, c, p.child) && CoreKept(db, Core(p.child), Core(c))
    ensures FilterOk(db, p.(child := c)) && CoreKept(db, Core(p), Core(p.(child := c)))
  {
    JoinFilterCarriesOver(db, p, p.(child := c), Core(p.child), Core(c));
  }

  /** A node with an optimized child. */
  lemma ReplaceChild(db: Database, exact: bool, p: Plan, c: Plan)
    requires p.Unary? && WellFormed(db, p) && RulesApply(db, p) && Replaces(db, exact, c, p.child)
    ensures Replaces(db, exact, p.(child := c), p)
  {
    RefineChild(db, p, c);
    if exact {
      NarrowChild(db, p.(child := c), p.child);
      assert p.(child := c).(child := p.child) == p;
    }
    if p.op.Filter? {
      FilterCarriesOver(db, p, c);
    }
  }

  lemma ReplaceChildren(db: Database, exact: bool, p: Plan, l: Plan, r: Plan)
    requires p.Join? && WellFormed(db, p) && TablesTyped(db) && RulesApply(db, p)
    requires Replaces(db, exact, l, p.left) && Replaces(db, exact, r, p.right)
    ensures Replaces(db, exact, p.(left := l, right := r), p)
  {
    RefineChildren(db, p, l, r);
    HashedLeftJoinCarriesOver(db, p.joinOp, p.left, p.right, l, r);
    if exact {
      NarrowChildren(db, p.(left := l, right := r), p.left, p.right);
      assert p.(left := l, right := r).(left := p.left, right := p.right) == p;
    }
  }

  lemma ReplacesTransitive(db: Database, exact: bool, r: Plan, q: Plan, p: Plan)
    requires Replaces(db, exact, r, q) && Replaces(db, exact, q, p)
    ensures Replaces(db, exact, r, p)
  {
    RefinesTransitive(db, r, q, p);
    CoreKeptTransitive(db, Core(p), Core(q), Core(r));
  }

  /** One rule on a whole plan: unless it throws, its result may take the plan's place. */
  lemma {:induction false} RuleIsSound(rule: Rule, db: Database, p: Plan)
    requires WellFormed(db, p) && TablesTyped(db) && RulesApply(db, p) && Optimize(rule, p).Some?
    ensures Replaces(db, KeepsFailures(rule), Optimize(rule, p).value, p)
  {
    var exact := KeepsFailures(rule);
    match p
    case Leaf(_, _) =>
      AtRootReplaces(rule, db, p);
    case Unary(_, _, child) =>
      RuleIsSound(rule, db, child);
      var q := p.(child := Optimize(rule, child).value);
      ReplaceChild(db, exact, p, Optimize(rule, child).value);
      AtRootReplaces(rule, db, q);
      ReplacesTransitive(db, exact, AtRoot(rule, q).value, q, p);
    case Join(_, _, left, right) =>
      RuleIsSound(rule, db, left);
      RuleIsSound(rule, db, right);
      var q := p.(left := Optimize(rule, left).value, right := Optimize(rule, right).value);
      ReplaceChildren(db, exact, p, Optimize(rule, left).value, Optimize(rule, right).value);
      AtRootReplaces(rule, db, q);
      ReplacesTransitive(db, exact, AtRoot(rule, q).value, q, p);
  }

  lemma ReplacesSelf(db: Database, exact: bool, p: Plan)
    requires WellFormed(db, p) && RulesApply(db, p)
    ensures Replaces(db, exact, p, p)
  {
    CoreKeptReflexive(db, Core(p));
  }

  lemma {:induction false} RulesAreSound(rules: seq<Rule>, db: Database, p: Plan)
    requires WellFormed(db, p) && TablesTyped(db) && RulesApply(db, p) && OptimizeAll(rules, p).Some?
    ensures Replaces(db, forall r :: r in rules ==> KeepsFailures(r), OptimizeAll(rules, p).value, p)
  {
    var exact := forall r :: r in rules ==> KeepsFailures(r);
    if rules == [] {
      ReplacesSelf(db, exact, p);
    } else {
      RuleIsSound(rules[0], db, p);
      var q := Optimize(rules[0], p).value;
      RulesAreSound(rules[1..], db, q);
      ReplacesTransitive(db, exact, OptimizeAll(rules[1..], q).value, q, p);
    }
  }

  /**
   * Unless optimizing throws, executing the optimized plan may yield exactly the rows that executing the
   * original may yield, with the same types in every column, and fails only as the original may fail.
   */
  lemma OptimizerIsSound(db: Database, p: Plan)
    requires WellFormed(db, p) && TablesTyped(db) && RulesApply(db, p) && OptimizeCustom(p).Some?
    ensures var q := OptimizeCustom(p).value;
            && WellFormed(db, q) && q.Types() == p.Types()
            && (forall rows :: Allowed(db, q, Rows(rows)) <==> Allowed(db, p, Rows(rows)))
            && forall out :: Allowed(db, q, out) ==> Allowed(db, p, out)
  {
    RulesAreSound(CUSTOM_RULES, db, p);
  }

  // ----- Nothing is left to rewrite -----

  /** The rule would rewrite this node. */
  predicate Matches(rule: Rule, p: Plan) {
    match rule
    case MergeProjection => p.Unary? && p.op.Projection? && IsIdentity(p.op.expressions, p.Types(), p.child.Types())
    case MergeFilterScan =>
      p.Unary? && p.op.Filter? && p.child.Leaf? && p.child.leafOp.SeqScan? && p.child.leafOp.filterPredicate.None?
    case MergeFilterNLJ =>
      p.Unary? && p.op.Filter? && p.child.Join? && p.child.joinOp.NestedLoopJoin?
      && IsPredicateTrue(p.child.joinOp.pred) == Some(true)
    case FalseFilter => p.Unary? && p.op.Filter? && IsPredicateFalse(p.op.pred) == Some(true)
    case NLJAsHashJoin => p.Join? && p.joinOp.NestedLoopJoin? && IsColumnEquality(p.joinOp.pred)
    case SortLimitAsTopN => p.Unary? && p.op.Limit? && p.child.Unary? && p.child.op.Sort?
  }

  predicate NoMatch(rule: Rule, p: Plan) {
    !Matches(rule, p) &&
    match p
    case Leaf(_, _) => true
    case Unary(_, _, child) => NoMatch(rule, child)
    case Join(_, _, left, right) => NoMatch(rule, left) && NoMatch(rule, right)
  }

  lemma AtRootLeavesNoMatch(rule: Rule, p: Plan)
    requires AtRoot(rule, p).Some?
    requires p.Unary? ==> NoMatch(rule, p.child)
    requires p.Join? ==> NoMatch(rule, p.left) && NoMatch(rule, p.right)
    ensures NoMatch(rule, AtRoot(rule, p).value)
  {
    if rule == MergeProjection && Matches(rule, p) {
      assert p.child.(schema := p.schema).Types() == p.child.Types();
    }
  }

  /** One pass of a rule rewrites every node it applies to, also those that only the pass itself brings about. */
  lemma {:induction false} RuleLeavesNoMatch(rule: Rule, p: Plan)
    requires Optimize(rule, p).Some?
    ensures NoMatch(rule, Optimize(rule, p).value)
    decreases p
  {
    match p
    case Leaf(_, _) => AtRootLeavesNoMatch(rule, p);
    case Unary(_, _, child) =>
      RuleLeavesNoMatch(rule, child);
      AtRootLeavesNoMatch(rule, p.(child := Optimize(rule, child).value));
    case Join(_, _, left, right) =>
      RuleLeavesNoMatch(rule, left);
      RuleLeavesNoMatch(rule, right);
      AtRootLeavesNoMatch(rule, p.(left := Optimize(rule, left).value, right := Optimize(rule, right).value));
  }
}
