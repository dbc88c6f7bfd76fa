/** Small inputs on which a rewrite or an aggregate does not do what it stands for. */
module Counterexamples {
  import opened Types
  import opened Expressions
  import opened RowOperators
  import opened Aggregates

  const IS_ONE := Binary(Comparison(Equal), ColumnValue(0, 0, INTEGER), Constant(Int(INTEGER, 1)))

  const NULL_ROWS: seq<Row> := [[Null(INTEGER)]]

  /** WHERE x = 1 over a row whose x is NULL: merged into the scan, the predicate lets the row through. */
  lemma NullComparisonPassesScan()
    ensures ScanRows(Some(IS_ONE), NULL_ROWS) == NULL_ROWS && FilterRows(IS_ONE, NULL_ROWS) == []
  {
    assert IS_ONE.Evaluate(NULL_ROWS[0]) == Some(Null(BOOLEAN));
    GetAsBoolVersusIsTrue(Null(BOOLEAN));
    KeepAll(ScanTest(Some(IS_ONE)), NULL_ROWS);
    KeepNone(FilterTest(IS_ONE), NULL_ROWS);
  }

  /** A left nested loop join of two single rows. */
  lemma LoopOfSingleRows(pred: Expression, types: seq<TypeId>, l: Row, r: Row)
    ensures NestedLoopRows(pred, LEFT, types, [l], [r])
         == [l + if Passes(pred.EvaluateJoin(l, r)) then r else NullRow(types)]
  {
    assert [l][1..] == [] && [r][1..] == [];
    assert Keep(MatchTest(pred, l), [r]) == if Passes(pred.EvaluateJoin(l, r)) then [r] else [];
  }

  const LEFT_ROWS: seq<Row> := [[Int(INTEGER, 1)]]

  const RIGHT_ROWS: seq<Row> := [[Int(INTEGER, 2)]]

  const SAME := Binary(Comparison(Equal), ColumnValue(0, 0, INTEGER), ColumnValue(0, 1, INTEGER))

  lemma RowsDiffer()
    ensures RewriteForJoin(SAME, 1, 1).Some?
    ensures !Passes(SAME.Evaluate([Int(INTEGER, 1), Int(INTEGER, 2)]))
    ensures !Passes(RewriteForJoin(SAME, 1, 1).value.EvaluateJoin(LEFT_ROWS[0], RIGHT_ROWS[0]))
  {
  }

  lemma FilterOfOne(pred: Expression, row: Row)
    requires !Passes(pred.Evaluate(row))
    ensures FilterRows(pred, [row]) == []
  {
    assert [row][1..] == [];
  }

  /** A filter on x = y over a left join of everything drops the row without a match; the merged join pads it. */
  lemma UnmatchedRowIsPadded()
    ensures var on := RewriteForJoin(SAME, 1, 1);
            && FilterRows(SAME, NestedLoopRows(Constant(Bool(true)), LEFT, [INTEGER], LEFT_ROWS, RIGHT_ROWS)) == []
            && on.Some?
            && NestedLoopRows(on.value, LEFT, [INTEGER], LEFT_ROWS, RIGHT_ROWS) == [[Int(INTEGER, 1), Null(INTEGER)]]
  {
    RowsDiffer();
    LoopOfSingleRows(Constant(Bool(true)), [INTEGER], LEFT_ROWS[0], RIGHT_ROWS[0]);
    LoopOfSingleRows(RewriteForJoin(SAME, 1, 1).value, [INTEGER], LEFT_ROWS[0], RIGHT_ROWS[0]);
    assert LEFT_ROWS[0] + RIGHT_ROWS[0] == [Int(INTEGER, 1), Int(INTEGER, 2)];
    assert LEFT_ROWS[0] + NullRow([INTEGER]) == [Int(INTEGER, 1), Null(INTEGER)];
    FilterOfOne(SAME, [Int(INTEGER, 1), Int(INTEGER, 2)]);
  }

  const ON_KEY := EquiJoin(0, INTEGER, 0, INTEGER, false)

  /** A left hash join with NULL keys on both sides drops the left row, for any hash function; the loop pads it. */
  lemma NullKeysDropLeftRow(hash: HashFunction)
    ensures ON_KEY.Spec(hash, LEFT, [INTEGER]).JoinRows(NULL_ROWS, NULL_ROWS) == []
    ensures NestedLoopRows(ON_KEY.Predicate(), LEFT, [INTEGER], NULL_ROWS, NULL_ROWS)
            == [[Null(INTEGER), Null(INTEGER)]]
  {
    NullKeyIsDropped(ON_KEY.Spec(hash, LEFT, [INTEGER]), NULL_ROWS[0]);
    LoopOfSingleRows(ON_KEY.Predicate(), [INTEGER], NULL_ROWS[0], NULL_ROWS[0]);
    assert NULL_ROWS[0] + NullRow([INTEGER]) == [Null(INTEGER), Null(INTEGER)];
  }

  lemma NullKeyIsDropped(spec: HashSpec, row: Row)
    requires spec.leftKey.Evaluate(row) == spec.rightKey.Evaluate(row) == Some(Null(INTEGER))
    ensures spec.JoinRows([row], [row]) == []
  {
    assert [row][1..] == [];
    assert spec.Bucket(Null(INTEGER), [row]) == [row];
    assert Keep(KeyTest(spec.rightKey, Null(INTEGER)), [row]) == [];
  }

  const RESTARTING := [Int(INTEGER, -0x7fff_ffff), Int(INTEGER, -1), Int(INTEGER, 5)]

  /** The partial sum that encodes NULL makes the sum start again: it is 5 instead of -2147483643. */
  lemma SumStartsAgain()
    ensures Fold(SumAggregate, RESTARTING) == Some(Int(INTEGER, 5))
    ensures SqlSum(INTEGER, RESTARTING) == Int(INTEGER, -0x7fff_fffb)
  {
    assert RESTARTING[..2] == [Int(INTEGER, -0x7fff_ffff), Int(INTEGER, -1)];
    assert RESTARTING[..2][..1] == [Int(INTEGER, -0x7fff_ffff)] && RESTARTING[..2][..1][..0] == [];
    SumStepIsExact(INTEGER, Int(INTEGER, -0x7fff_ffff), Int(INTEGER, -1));
    assert Fold(SumAggregate, RESTARTING[..2][..1]) == Some(Int(INTEGER, -0x7fff_ffff));
    assert Fold(SumAggregate, RESTARTING[..2]) == Some(Null(INTEGER));
    PartialSumsStep(INTEGER, RESTARTING[..2][..1]);
    PartialSumsStep(INTEGER, RESTARTING[..2]);
    PartialSumsStep(INTEGER, RESTARTING);
  }
}
