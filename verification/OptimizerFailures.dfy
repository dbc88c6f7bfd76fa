/** When optimizing a plan throws, and what the optimizer does to plans that would throw anyway. */
module OptimizerFailures {
  import opened Types
  import opened Expressions
  import opened RowOperators
  import opened Aggregates
  import opened AggregationTable
  import opened Plans
  import opened Optimizer
  import EdgeCases

  // ----- What a filter finds below it -----

  /**
   * What the root of a plan is to a filter above it: a scan without predicate, a nested loop join (its
   * predicate, if constant, and its number of columns), or something else.
   */
  datatype Root = ScanRoot | JoinRoot(constant: Option<Value>, width: nat) | OtherRoot

  function ConstantOf(e: Expression): Option<Value> {
    if e.Constant? then Some(e.val) else None
  }

  predicate ReadsTrue(v: Value) {
    CastToBoolean(v).Some? && v.GetAsBool()
  }

  /** The root once a filter has been merged into what is below it, if it is merged. */
  function FilteredRoot(stage: nat, pred: Expression, below: Root): Root {
    if stage <= 2 && below.JoinRoot? && below.constant.Some? && ReadsTrue(below.constant.value)
    then JoinRoot(ConstantOf(pred), below.width)
    else OtherRoot
  }

  /**
   * The root after the merging rules still to come. Stage 0 is before all rules, 1 once projections have
   * been merged, 2 once filters have also been merged into scans, 3 once they have been merged into joins.
   */
  function RootOf(stage: nat, p: Plan): Root {
    match p
    case Leaf(_, op) => if op.SeqScan? && op.filterPredicate.None? then ScanRoot else OtherRoot
    case Join(_, op, left, right) =>
      if op.NestedLoopJoin? then JoinRoot(ConstantOf(op.pred), |left.schema| + |right.schema|) else OtherRoot
    case Unary(_, op, child) =>
      if op.Filter? then FilteredRoot(stage, op.pred, RootOf(stage, child))
      else if stage == 0 && op.Projection? && IsIdentity(op.expressions, p.Types(), child.Types())
      then RootOf(stage, child)
      else OtherRoot
  }

  /**
   * A filter makes the optimizer throw if it is above a join on a constant that is no boolean, if it is
   * merged into a join that lacks one of its columns, or if it is merged into nothing and compares
   * constants that cannot be cast to INTEGER.
   */
  predicate FilterThrows(stage: nat, pred: Expression, below: Root) {
    if stage <= 1 && below.ScanRoot? then false
    else if stage <= 2 && below.JoinRoot? && below.constant.Some? && CastToBoolean(below.constant.value).None? then true
    else if stage <= 2 && below.JoinRoot? && below.constant.Some? && ReadsTrue(below.constant.value)
    then !ColumnsBelow(pred, below.width)
    else IsPredicateFalse(pred).None?
  }

  predicate OptimizingThrows(stage: nat, p: Plan) {
    match p
    case Leaf(_, _) => false
    case Unary(_, op, child) =>
      OptimizingThrows(stage, child) || (op.Filter? && FilterThrows(stage, op.pred, RootOf(stage, child)))
    case Join(_, _, left, right) => OptimizingThrows(stage, left) || OptimizingThrows(stage, right)
  }

  // ----- One stage after the other -----

  predicate NeverFails(rule: Rule) {
    rule != MergeFilterNLJ && rule != FalseFilter
  }

  lemma {:induction false} RuleNeverFails(rule: Rule, p: Plan)
    requires NeverFails(rule)
    ensures Optimize(rule, p).Some?
    decreases p
  {
    match p
    case Leaf(_, _) =>
    case Unary(_, _, child) => RuleNeverFails(rule, child);
    case Join(_, _, left, right) =>
      RuleNeverFails(rule, left);
      RuleNeverFails(rule, right);
  }

  /** The plan once the first merging rules have passed over it stands where the original stood. */
  predicate Advances(stage: nat, p: Plan, q: Plan) {
    RootOf(stage + 1, q) == RootOf(stage, p) && (OptimizingThrows(stage + 1, q) <==> OptimizingThrows(stage, p))
  }

  lemma AdvanceJoin(stage: nat, p: Plan, l: Plan, r: Plan)
    requires p.Join? && Advances(stage, p.left, l) && Advances(stage, p.right, r)
    requires l.schema == p.left.schema && r.schema == p.right.schema
    ensures Advances(stage, p, p.(left := l, right := r))
  {
  }

  lemma ProjectionsMergedAtRoot(p: Plan, c: Plan)
    requires p.Unary? && Advances(0, p.child, c) && c.schema == p.child.schema
    ensures Advances(0, p, MergeProjectionAtRoot(p.(child := c)))
  {
    var q := p.(child := c);
    if MergeProjectionAtRoot(q) != q {
      assert RootOf(1, c.(schema := p.schema)) == RootOf(1, c);
      assert OptimizingThrows(1, c.(schema := p.schema)) <==> OptimizingThrows(1, c);
    }
  }

  lemma {:induction false} ProjectionsMerged(p: Plan)
    ensures Optimize(MergeProjection, p).Some? && Advances(0, p, Optimize(MergeProjection, p).value)
    decreases p
  {
    RuleNeverFails(MergeProjection, p);
    match p
    case Leaf(_, _) =>
    case Unary(_, _, child) =>
      ProjectionsMerged(child);
      EdgeCases.RootSchemaKept(MergeProjection, child);
      ProjectionsMergedAtRoot(p, Optimize(MergeProjection, child).value);
    case Join(_, _, left, right) =>
      ProjectionsMerged(left);
      ProjectionsMerged(right);
      EdgeCases.RootSchemaKept(MergeProjection, left);
      EdgeCases.RootSchemaKept(MergeProjection, right);
      AdvanceJoin(0, p, Optimize(MergeProjection, left).value, Optimize(MergeProjection, right).value);
  }

  lemma ScansMergedAtRoot(p: Plan, c: Plan)
    requires p.Unary? && Advances(1, p.child, c)
    ensures Advances(1, p, MergeFilterScanAtRoot(p.(child := c)))
  {
  }

  lemma {:induction false} ScansMerged(p: Plan)
    ensures Optimize(MergeFilterScan, p).Some? && Advances(1, p, Optimize(MergeFilterScan, p).value)
    decreases p
  {
    RuleNeverFails(MergeFilterScan, p);
    match p
    case Leaf(_, _) =>
    case Unary(_, _, child) =>
      ScansMerged(child);
      ScansMergedAtRoot(p, Optimize(MergeFilterScan, child).value);
    case Join(_, _, left, right) =>
      ScansMerged(left);
      ScansMerged(right);
      EdgeCases.RootSchemaKept(MergeFilterScan, left);
      EdgeCases.RootSchemaKept(MergeFilterScan, right);
      AdvanceJoin(1, p, Optimize(MergeFilterScan, left).value, Optimize(MergeFilterScan, right).value);
  }

  lemma JoinsMergedAtRoot(p: Plan, c: Plan)
    requires p.Unary? && Advances(2, p.child, c)
    ensures var q := MergeFilterNLJAtRoot(p.(child := c));
            if q.None? then OptimizingThrows(2, p) else Advances(2, p, q.value)
  {
    if p.op.Filter? && c.Join? && c.joinOp.NestedLoopJoin? {
      RewriteSucceedsIff(p.op.pred, |c.left.schema|, |c.right.schema|);
    }
  }

  lemma {:induction false} JoinsMerged(p: Plan)
    ensures var q := Optimize(MergeFilterNLJ, p);
            if q.None? then OptimizingThrows(2, p) else Advances(2, p, q.value)
    decreases p
  {
    match p
    case Leaf(_, _) =>
    case Unary(_, _, child) =>
      JoinsMerged(child);
      if Optimize(MergeFilterNLJ, child).Some? {
        JoinsMergedAtRoot(p, Optimize(MergeFilterNLJ, child).value);
      }
    case Join(_, _, left, right) =>
      JoinsMerged(left);
      JoinsMerged(right);
      if Optimize(MergeFilterNLJ, left).Some? && Optimize(MergeFilterNLJ, right).Some? {
        EdgeCases.RootSchemaKept(MergeFilterNLJ, left);
        EdgeCases.RootSchemaKept(MergeFilterNLJ, right);
        AdvanceJoin(2, p, Optimize(MergeFilterNLJ, left).value, Optimize(MergeFilterNLJ, right).value);
      }
  }

  lemma {:induction false} FalseFilterThrowsIff(p: Plan)
    ensures Optimize(FalseFilter, p).None? <==> OptimizingThrows(3, p)
    decreases p
  {
    match p
    case Leaf(_, _) =>
    case Unary(_, _, child) => FalseFilterThrowsIff(child);
    case Join(_, _, left, right) =>
      FalseFilterThrowsIff(left);
      FalseFilterThrowsIff(right);
  }

  lemma {:induction false} RulesNeverFail(rules: seq<Rule>, p: Plan)
    requires forall r :: r in rules ==> NeverFails(r)
    ensures OptimizeAll(rules, p).Some?
  {
    if rules != [] {
      RuleNeverFails(rules[0], p);
      RulesNeverFail(rules[1..], Optimize(rules[0], p).value);
    }
  }

  lemma FirstRule(rule: Rule, rest: seq<Rule>, p: Plan)
    ensures OptimizeAll([rule] + rest, p)
         == if Optimize(rule, p).None? then None else OptimizeAll(rest, Optimize(rule, p).value)
  {
    assert ([rule] + rest)[1..] == rest;
  }

  const LAST_RULES := [NLJAsHashJoin, SortLimitAsTopN]

  /** Optimizing throws exactly for the plans with a filter of one of the three kinds. */
  lemma OptimizerThrowsIff(p: Plan)
    ensures OptimizeCustom(p).None? <==> OptimizingThrows(0, p)
  {
    assert CUSTOM_RULES == [MergeProjection] + ([MergeFilterScan] + ([MergeFilterNLJ] + ([FalseFilter] + LAST_RULES)));
    FirstRule(MergeProjection, [MergeFilterScan] + ([MergeFilterNLJ] + ([FalseFilter] + LAST_RULES)), p);
    ProjectionsMerged(p);
    var p1 := Optimize(MergeProjection, p).value;
    FirstRule(MergeFilterScan, [MergeFilterNLJ] + ([FalseFilter] + LAST_RULES), p1);
    ScansMerged(p1);
    var p2 := Optimize(MergeFilterScan, p1).value;
    FirstRule(MergeFilterNLJ, [FalseFilter] + LAST_RULES, p2);
    JoinsMerged(p2);
    if Optimize(MergeFilterNLJ, p2).Some? {
      var p3 := Optimize(MergeFilterNLJ, p2).value;
      FirstRule(FalseFilter, LAST_RULES, p3);
      FalseFilterThrowsIff(p3);
      if Optimize(FalseFilter, p3).Some? {
        RulesNeverFail(LAST_RULES, Optimize(FalseFilter, p3).value);
      }
    }
  }

  // ----- Plans on which it matters -----

  const ONE_COLUMN := [Column("x", INTEGER)]

  const TWO_COLUMNS := [Column("x", INTEGER), Column("y", INTEGER)]

  const SCAN := Leaf(ONE_COLUMN, SeqScan(0, None))

  /** SELECT .. FROM a INNER JOIN b ON 1 WHERE x = y */
  const JOINED_ON_ONE :=
    Unary(TWO_COLUMNS, Filter(Binary(Comparison(Equal), ColumnValue(0, 0, INTEGER), ColumnValue(0, 1, INTEGER))),
          Join(TWO_COLUMNS, NestedLoopJoin(Constant(Int(INTEGER, 1)), INNER), SCAN, SCAN))

  lemma FilterIsSafe(db: Database, p: Plan)
    requires p.Unary? && p.op.Filter? && Safe(db, p.child)
    ensures Safe(db, p)
  {
  }

  lemma JoinIsSafe(db: Database, p: Plan)
    requires p.Join? && Safe(db, p.left) && Safe(db, p.right)
    ensures Safe(db, p)
  {
  }

  /** The plan runs on any table of that type, but optimizing it throws. */
  lemma JoinOnOneThrows(db: Database)
    requires |db.tables| > 0 && db.tables[0].types == [INTEGER]
    ensures WellFormed(db, JOINED_ON_ONE) && Safe(db, JOINED_ON_ONE) && OptimizeCustom(JOINED_ON_ONE).None?
  {
    JoinOnOneIsWellFormed(db);
    assert Safe(db, SCAN);
    JoinIsSafe(db, JOINED_ON_ONE.child);
    FilterIsSafe(db, JOINED_ON_ONE);
    OptimizerThrowsIff(JOINED_ON_ONE);
  }

  lemma JoinOnOneIsWellFormed(db: Database)
    requires |db.tables| > 0 && db.tables[0].types == [INTEGER]
    ensures WellFormed(db, JOINED_ON_ONE)
  {
    assert TypesOf(ONE_COLUMN) == [INTEGER] && TypesOf(TWO_COLUMNS) == [INTEGER, INTEGER] == [INTEGER] + [INTEGER];
    assert WellFormed(db, SCAN);
    assert WellFormed(db, JOINED_ON_ONE.child);
  }

  /** A comparison of constants, one of which does not fit INTEGER. */
  const BIG_COMPARISON := Binary(Comparison(Equal), Constant(Int(BIGINT, 5_000_000_000)), Constant(Int(INTEGER, 1)))

  lemma BigComparisonThrows(schema: Schema, child: Plan)
    requires RootOf(0, child) == OtherRoot
    ensures OptimizeCustom(Unary(schema, Filter(BIG_COMPARISON), child)).None?
  {
    OptimizerThrowsIff(Unary(schema, Filter(BIG_COMPARISON), child));
  }

  /** SELECT sum(x) FROM a, under a filter that never holds. */
  const NEVER := Binary(Comparison(Equal), Constant(Int(INTEGER, 1)), Constant(Int(INTEGER, 2)))

  const SUM_OF_X := Unary(ONE_COLUMN, Aggregation([], [ColumnValue(0, 0, INTEGER)], [SumAggregate]), SCAN)

  const NEVER_SUM := Unary(ONE_COLUMN, Filter(NEVER), SUM_OF_X)

  /** Two rows whose sum does not fit. */
  const BIG_ROWS: seq<Row> := [[Int(INTEGER, 0x7fff_ffff)], [Int(INTEGER, 1)]]

  function BigDatabase(hash: HashFunction): Database {
    Database([TableData([INTEGER], BIG_ROWS)], hash)
  }

  lemma OneColumnRow(row: Row)
    requires |row| == 1
    ensures ProjectRow([ColumnValue(0, 0, INTEGER)], row) == row
  {
    assert [ColumnValue(0, 0, INTEGER)][1..] == [];
    assert [row[0]] + [] == row;
  }

  lemma BigEntries()
    ensures EntriesOf([], [ColumnValue(0, 0, INTEGER)], BIG_ROWS) == [Entry([], BIG_ROWS[0]), Entry([], BIG_ROWS[1])]
  {
    OneColumnRow(BIG_ROWS[0]);
    OneColumnRow(BIG_ROWS[1]);
  }

  lemma OneAggregate(ty: AggregationType, acc: Value, input: Value)
    ensures CombineAll([ty], [acc], [input])
         == match Combine(ty, acc, input) case Some(v) => Some([v]) case None => None
  {
    assert [ty][1..] == [] && [acc][1..] == [] && [input][1..] == [];
    assert CombineAll([], [], []) == Some([]);
    assert Combine(ty, acc, input).Some? ==> [Combine(ty, acc, input).value] + [] == [Combine(ty, acc, input).value];
  }

  lemma BigTableThrows()
    ensures TableOf([SumAggregate], [Entry([], BIG_ROWS[0]), Entry([], BIG_ROWS[1])]) == None
  {
    var first, both := [Entry([], BIG_ROWS[0])], [Entry([], BIG_ROWS[0]), Entry([], BIG_ROWS[1])];
    assert first[..0] == [] && both[..1] == first;
    OneAggregate(SumAggregate, Null(INTEGER), BIG_ROWS[0][0]);
    assert InitialValues([SumAggregate]) == [Null(INTEGER)] && BIG_ROWS[0] == [BIG_ROWS[0][0]];
    assert TableOf([SumAggregate], first) == Some(map[[] := BIG_ROWS[0]]);
    OneAggregate(SumAggregate, BIG_ROWS[0][0], BIG_ROWS[1][0]);
    assert BIG_ROWS[1] == [BIG_ROWS[1][0]] && Combine(SumAggregate, BIG_ROWS[0][0], BIG_ROWS[1][0]) == None;
  }

  lemma ScanYieldsBigRows(hash: HashFunction)
    ensures LeafRows(BigDatabase(hash), SCAN.leafOp) == BIG_ROWS
  {
    KeepAll(ScanTest(None), BIG_ROWS);
  }

  lemma SumOutcome(out: Outcome)
    ensures UnaryAllows(SUM_OF_X.op, SUM_OF_X.schema, BIG_ROWS, out) <==> out == Throws
  {
    BigEntries();
    BigTableThrows();
  }

  lemma SumThrows(hash: HashFunction, out: Outcome)
    ensures Allowed(BigDatabase(hash), SUM_OF_X, out) <==> out == Throws
  {
    ScanYieldsBigRows(hash);
    SumOutcome(out);
    assert Allowed(BigDatabase(hash), SCAN, Rows(BIG_ROWS));
  }

  lemma NeverSumThrows(hash: HashFunction, out: Outcome)
    ensures Allowed(BigDatabase(hash), NEVER_SUM, out) <==> out == Throws
  {
    forall c
      ensures Allowed(BigDatabase(hash), SUM_OF_X, c) <==> c == Throws
    {
      SumThrows(hash, c);
    }
    assert NEVER_SUM.child == SUM_OF_X;
    assert Allowed(BigDatabase(hash), NEVER_SUM.child, Throws);
  }

  /** FalseFilter turns an exception into an empty result. */
  lemma FalseFilterHidesException(hash: HashFunction)
    ensures Optimize(FalseFilter, NEVER_SUM) == Some(Leaf(ONE_COLUMN, Values([])))
    ensures var db := BigDatabase(hash);
            && (forall out :: Allowed(db, NEVER_SUM, out) <==> out == Throws)
            && (forall out :: Allowed(db, Leaf(ONE_COLUMN, Values([])), out) <==> out == Rows([]))
  {
    forall out
      ensures Allowed(BigDatabase(hash), NEVER_SUM, out) <==> out == Throws
    {
      NeverSumThrows(hash, out);
    }
    assert LeafRows(BigDatabase(hash), Values([])) == [];
  }
}
