/** What executors still have to hand out, as functions of the state they keep. */
module ExecutorStates {
  import opened Sequences
  import opened Types
  import opened Expressions
  import opened Ordering
  import opened RowOperators
  import opened Aggregates
  import opened AggregationTable
  import opened Plans

  /** One call of Next with `before` still to hand out. */
  ghost predicate HandsOut(before: seq<Row>, row: Option<Row>, after: seq<Row>) {
    if before == [] then row == None && after == [] else row == Some(before[0]) && after == before[1..]
  }

  lemma MoveFirst<T>(a: seq<T>, b: seq<T>)
    requires b != []
    ensures (a + [b[0]]) + b[1..] == a + b
  {
  }

  // ----- Filter -----

  /** A row the child hands out is either the filter's next row or none of its rows. */
  lemma FilterStep(pred: Expression, types: seq<TypeId>, before: seq<Row>, row: Row, after: seq<Row>)
    requires HandsOut(before, Some(row), after) && RowsHaveTypes(before, types) && Typed(pred, types, [])
    ensures pred.Evaluate(row).Some? && RowsHaveTypes(after, types)
    ensures FilterRows(pred, before) == (if FilterTest(pred)(row) then [row] else []) + FilterRows(pred, after)
  {
    assert before == [row] + after;
    assert row in before;
    EvaluateIsSound(pred, types, row);
    KeepCons(FilterTest(pred), row, after);
  }

  // ----- Nested loop join -----

  /**
   * What a nested loop join still has to hand out: the matches of the current left row behind the
   * cursor, if there is a current left row, and everything for the left rows not fetched yet.
   */
  function NestedLoopPending(op: JoinOp, rightTypes: seq<TypeId>, l: Row, cursor: int, ls: seq<Row>,
                             rs: seq<Row>): seq<Row>
    requires op.NestedLoopJoin? && cursor <= |rs|
  {
    (if cursor < 0 then []
     else Matches(op.pred, l, rs[cursor..])) + NestedLoopRows(op.pred, op.joinType, rightTypes, ls, rs)
  }

  lemma NestedLoopStarts(db: Database, op: JoinOp, rightTypes: seq<TypeId>, l: Row, ls: seq<Row>, rs: seq<Row>)
    requires op.NestedLoopJoin?
    ensures NestedLoopPending(op, rightTypes, l, -1, ls, rs) == JoinedRows(db, op, rightTypes, ls, rs)
  {
  }

  /** What is still to come once a left row has been fetched: everything for it, or what is behind the cursor. */
  function NestedLoopNow(op: JoinOp, rightTypes: seq<TypeId>, l: Row, cursor: int, ls: seq<Row>, rs: seq<Row>): seq<Row>
    requires op.NestedLoopJoin? && cursor <= |rs|
  {
    (if cursor < 0 then JoinOne(op.pred, op.joinType, rightTypes, l, rs) else Matches(op.pred, l, rs[cursor..]))
    + NestedLoopRows(op.pred, op.joinType, rightTypes, ls, rs)
  }

  /** Fetching the next left row turns what was pending into what is still to come for that row. */
  lemma FetchedLeft(op: JoinOp, types: seq<TypeId>, rightTypes: seq<TypeId>, l0: Row, before: seq<Row>, l: Row,
                    after: seq<Row>, rs: seq<Row>)
    requires op.NestedLoopJoin? && HandsOut(before, Some(l), after) && RowsHaveTypes(before, types)
    ensures RowHasTypes(l, types) && RowsHaveTypes(after, types)
    ensures NestedLoopPending(op, rightTypes, l0, -1, before, rs) == NestedLoopNow(op, rightTypes, l, -1, after, rs)
  {
    assert before == [l] + after;
    assert l in before;
  }

  function Prepend(row: Option<Row>, rows: seq<Row>): seq<Row> {
    match row
    case Some(r) => [r] + rows
    case None => rows
  }

  /** The cursor skips to the next match, which is handed out. */
  lemma CursorHits(op: JoinOp, rightTypes: seq<TypeId>, l: Row, cursor: int, m: nat, ls: seq<Row>, rs: seq<Row>)
    requires op.NestedLoopJoin? && cursor <= m < |rs| && MatchTest(op.pred, l)(rs[m])
    requires Keep(MatchTest(op.pred, l), rs[if cursor < 0 then 0 else cursor..]) == Keep(MatchTest(op.pred, l), rs[m..])
    ensures NestedLoopNow(op, rightTypes, l, cursor, ls, rs)
         == Prepend(Some(l + rs[m]), NestedLoopPending(op, rightTypes, l, m + 1, ls, rs))
  {
    assert rs[0..] == rs;
    assert rs[m..] == [rs[m]] + rs[m + 1..];
    var found := Keep(MatchTest(op.pred, l), rs[m..]);
    KeepCons(MatchTest(op.pred, l), rs[m], rs[m + 1..]);
    assert found[1..] == Keep(MatchTest(op.pred, l), rs[m + 1..]);
    Reassociate([l + rs[m]], Matches(op.pred, l, rs[m + 1..]),
                NestedLoopRows(op.pred, op.joinType, rightTypes, ls, rs));
  }

  /** The cursor finds nothing more; a left row that never matched is padded by a left join. */
  lemma CursorMisses(op: JoinOp, rightTypes: seq<TypeId>, l: Row, cursor: int, ls: seq<Row>, rs: seq<Row>)
    requires op.NestedLoopJoin? && cursor <= |rs|
    requires Keep(MatchTest(op.pred, l), rs[if cursor < 0 then 0 else cursor..]) == []
    ensures NestedLoopNow(op, rightTypes, l, cursor, ls, rs)
         == Prepend(Padding(op, rightTypes, l, cursor), NestedLoopPending(op, rightTypes, l, -1, ls, rs))
  {
    var later := NestedLoopRows(op.pred, op.joinType, rightTypes, ls, rs);
    assert [] + later == later;
    assert rs[0..] == rs;
    assert Matches(op.pred, l, rs[if cursor < 0 then 0 else cursor..]) == [];
  }

  function Padding(op: JoinOp, rightTypes: seq<TypeId>, l: Row, cursor: int): Option<Row>
    requires op.NestedLoopJoin?
  {
    if cursor < 0 && op.joinType == LEFT then Some(l + NullRow(rightTypes)) else None
  }

  lemma NothingLeft(op: JoinOp, l: Row, cursor: nat, rs: seq<Row>)
    requires op.NestedLoopJoin? && cursor <= |rs|
    requires Keep(MatchTest(op.pred, l), rs[cursor..]) == Keep(MatchTest(op.pred, l), rs[|rs|..])
    ensures Keep(MatchTest(op.pred, l), rs[cursor..]) == []
  {
  }

  // ----- Hash join -----

  lemma {:induction false} JoinRowsStep(spec: HashSpec, l: Row, ls: seq<Row>, rs: seq<Row>)
    ensures spec.JoinRows([l] + ls, rs) == spec.JoinOne(l, rs) + spec.JoinRows(ls, rs)
  {
    assert ([l] + ls)[1..] == ls;
  }

  function BucketAt(table: map<int, seq<Row>>, h: int): seq<Row> {
    if h in table then table[h] else []
  }

  /** One round of the probe loop. */
  lemma ProbeRound(spec: HashSpec, types: seq<TypeId>, before: seq<Row>, l: Row, after: seq<Row>, rs: seq<Row>,
                   output: seq<Row>)
    requires HandsOut(before, Some(l), after) && RowsHaveTypes(before, types) && Typed(spec.leftKey, types, [])
    ensures spec.leftKey.Evaluate(l).Some? && RowsHaveTypes(after, types)
    ensures output + spec.JoinRows(before, rs) == (output + spec.JoinOne(l, rs)) + spec.JoinRows(after, rs)
  {
    assert before == [l] + after;
    assert l in before;
    EvaluateIsSound(spec.leftKey, types, l);
    JoinRowsStep(spec, l, after, rs);
    Reassociate(output, spec.JoinOne(l, rs), spec.JoinRows(after, rs));
  }

  /** The hash table holds the rows seen so far, each under its hash and in arrival order. */
  ghost predicate HoldsBuckets(table: map<int, seq<Row>>, hash: HashFunction, key: Expression, seen: seq<Row>) {
    && (forall h :: h in table ==> table[h] != [])
    && forall h :: BucketAt(table, h) == Keep(HashTest(hash, key, h), seen)
  }

  lemma BucketGrows(hash: HashFunction, key: Expression, seen: seq<Row>, row: Row, g: int)
    ensures Keep(HashTest(hash, key, g), seen + [row])
         == Keep(HashTest(hash, key, g), seen) + (if HashTest(hash, key, g)(row) then [row] else [])
  {
    KeepDistributes(HashTest(hash, key, g), seen, [row]);
    KeepCons(HashTest(hash, key, g), row, []);
    assert [row] + [] == [row];
  }

  lemma AddToBucket(table: map<int, seq<Row>>, hash: HashFunction, key: Expression, seen: seq<Row>, row: Row)
    requires HoldsBuckets(table, hash, key, seen) && key.Evaluate(row).Some?
    ensures var h := HashValue(hash, key.Evaluate(row).value);
            HoldsBuckets(table[h := BucketAt(table, h) + [row]], hash, key, seen + [row])
  {
    var h := HashValue(hash, key.Evaluate(row).value);
    forall g
      ensures BucketAt(table[h := BucketAt(table, h) + [row]], g) == Keep(HashTest(hash, key, g), seen + [row])
    {
      BucketGrows(hash, key, seen, row, g);
    }
  }

  // ----- Top-N -----

  function Reverse(rows: seq<Row>): (out: seq<Row>)
    ensures |out| == |rows|
    ensures forall i :: 0 <= i < |rows| ==> out[i] == rows[|rows| - 1 - i]
  {
    seq(|rows|, i requires 0 <= i < |rows| => rows[|rows| - 1 - i])
  }

  lemma ReversePush(rows: seq<Row>, row: Row)
    ensures Reverse(rows + [row]) == [row] + Reverse(rows)
  {
  }

  lemma {:induction false} ReverseKeepsRows(rows: seq<Row>)
    ensures multiset(Reverse(rows)) == multiset(rows)
  {
    if rows == [] {
      assert Reverse(rows) == [];
    } else {
      var front, last := rows[..|rows| - 1], rows[|rows| - 1];
      assert rows == front + [last];
      ReversePush(front, last);
      ReverseKeepsRows(front);
    }
  }

  /** No row of `big` precedes a row of `small`. */
  predicate Separated(orderBys: seq<OrderBy>, small: seq<Row>, big: seq<Row>) {
    forall s, b :: s in small && b in big ==> !Less(orderBys, b, s)
  }

  /** The heap holds the first rows of the order, at most `n`, among all rows seen. */
  ghost predicate HeapState(orderBys: seq<OrderBy>, n: nat, heap: seq<Row>, dropped: seq<Row>, seen: seq<Row>) {
    && multiset(seen) == multiset(heap) + multiset(dropped)
    && |heap| == Min(n, |seen|)
    && Separated(orderBys, heap, dropped)
  }

  lemma HeapMembers(heap: seq<Row>, dropped: seq<Row>, seen: seq<Row>)
    requires multiset(seen) == multiset(heap) + multiset(dropped)
    ensures |seen| == |heap| + |dropped| && forall r :: r in seen <==> r in heap || r in dropped
  {
    assert multiset(heap + dropped) == multiset(seen);
    PermutationHasSameMembers(heap + dropped, seen);
  }

  /** Pushing a row onto a heap that is not full. */
  lemma PushRow(orderBys: seq<OrderBy>, n: nat, heap: seq<Row>, dropped: seq<Row>, seen: seq<Row>, row: Row)
    requires HeapState(orderBys, n, heap, dropped, seen) && |heap| < n
    ensures HeapState(orderBys, n, heap + [row], dropped, seen + [row])
  {
    HeapMembers(heap, dropped, seen);
  }

  /** If the popped row is not one of the heap, it is the pushed one, and the rows left are those of the heap. */
  lemma RowLeftIsOld(heap: seq<Row>, row: Row, rest: seq<Row>, top: Row)
    requires multiset(heap + [row]) == multiset(rest) + multiset{top} && top !in heap
    ensures top == row && multiset(rest) == multiset(heap) && forall r :: r in rest ==> r in heap
  {
    assert multiset(heap + [row]) == multiset(heap) + multiset{row};
    assert top in multiset(heap) + multiset{row};
    assert multiset(rest) == multiset(heap + [row]) - multiset{top};
    PermutationHasSameMembers(rest, heap);
  }

  /** A row left on the heap is not preceded by a row dropped earlier. */
  lemma DroppedEarlier(orderBys: seq<OrderBy>, heap: seq<Row>, dropped: seq<Row>, row: Row, top: Row, rest: seq<Row>,
                       r: Row, d: Row)
    requires Separated(orderBys, heap, dropped) && AllSortable(orderBys, [d, top, r])
    requires multiset(heap + [row]) == multiset(rest) + multiset{top}
    requires r in rest && d in dropped && !Less(orderBys, top, r)
    ensures !Less(orderBys, d, r)
  {
    if top in heap {
      assert d in [d, top, r] && top in [d, top, r] && r in [d, top, r];
      LessIsStrictWeakOrder(orderBys, d, top, r);
    } else {
      RowLeftIsOld(heap, row, rest, top);
    }
  }

  /** Pushing a row onto a full heap and popping a row that precedes none of the others. */
  lemma PushAndPop(orderBys: seq<OrderBy>, n: nat, heap: seq<Row>, dropped: seq<Row>, seen: seq<Row>, row: Row,
                   top: Row, rest: seq<Row>)
    requires HeapState(orderBys, n, heap, dropped, seen) && |heap| == n && AllSortable(orderBys, seen + [row])
    requires multiset(heap + [row]) == multiset(rest) + multiset{top} && |rest| == n
    requires forall r :: r in rest ==> !Less(orderBys, top, r)
    ensures HeapState(orderBys, n, rest, dropped + [top], seen + [row])
  {
    HeapMembers(heap, dropped, seen);
    MoveToDropped(multiset(seen), multiset(heap), multiset(dropped), row, top, multiset(rest));
    assert multiset(heap + [row]) == multiset(heap) + multiset{row};
    assert multiset(dropped + [top]) == multiset(dropped) + multiset{top};
    forall r, d | r in rest && d in dropped + [top]
      ensures !Less(orderBys, d, r)
    {
      if d in dropped {
        RestIsSeen(heap, dropped, seen, row, top, rest, r, d);
        DroppedEarlier(orderBys, heap, dropped, row, top, rest, r, d);
      }
    }
  }

  lemma MoveToDropped(seen: multiset<Row>, heap: multiset<Row>, dropped: multiset<Row>, row: Row, top: Row,
                      rest: multiset<Row>)
    requires seen == heap + dropped
    ensures heap + multiset{row} == rest + multiset{top} ==> seen + multiset{row} == rest + (dropped + multiset{top})
  {
    assert seen + multiset{row} == heap + multiset{row} + dropped;
  }

  lemma RestIsSeen(heap: seq<Row>, dropped: seq<Row>, seen: seq<Row>, row: Row, top: Row, rest: seq<Row>, r: Row,
                   d: Row)
    requires multiset(seen) == multiset(heap) + multiset(dropped) && r in rest && d in dropped
    requires multiset(heap + [row]) == multiset(rest) + multiset{top}
    ensures forall x :: x in [d, top, r] ==> x in seen + [row]
  {
    HeapMembers(heap, dropped, seen);
    assert multiset([top]) == multiset{top};
    HeapMembers(rest, [top], heap + [row]);
    forall x | x in [d, top, r]
      ensures x in seen + [row]
    {
      assert x in dropped || x in heap + [row];
    }
  }

  /** Popping the heap onto the stack: the stack, read from the top, stays sorted and behind the heap. */
  ghost predicate StackState(orderBys: seq<OrderBy>, heap: seq<Row>, stack: seq<Row>, kept: seq<Row>) {
    && multiset(kept) == multiset(heap) + multiset(stack)
    && Sorted(orderBys, Reverse(stack))
    && Separated(orderBys, heap, stack)
  }

  lemma PopOntoStack(orderBys: seq<OrderBy>, heap: seq<Row>, stack: seq<Row>, kept: seq<Row>, top: Row, rest: seq<Row>)
    requires StackState(orderBys, heap, stack, kept)
    requires multiset(heap) == multiset(rest) + multiset{top}
    requires forall r :: r in rest ==> !Less(orderBys, top, r)
    ensures StackState(orderBys, rest, stack + [top], kept)
  {
    ReversePush(stack, top);
    assert multiset(rest + [top]) == multiset(heap);
    PermutationHasSameMembers(rest + [top], heap);
    assert top in rest + [top] && forall r :: r in rest ==> r in rest + [top];
  }

  lemma StackIsTopN(orderBys: seq<OrderBy>, n: nat, heap: seq<Row>, dropped: seq<Row>, rows: seq<Row>, stack: seq<Row>)
    requires AllSortable(orderBys, rows) && HeapState(orderBys, n, heap, dropped, rows)
    requires StackState(orderBys, [], stack, heap)
    ensures IsTopN(orderBys, n, Reverse(stack), rows)
  {
    ReverseKeepsRows(stack);
    assert multiset(heap) == multiset(stack);
    PermutationHasSameMembers(Reverse(stack), heap);
    SmallestRowsAreTopN(orderBys, n, Reverse(stack), dropped, rows);
  }

  // ----- Limit -----

  /** What a limit still lets through of the rows to come. */
  function Limited(limit: nat, count: nat, rows: seq<Row>): seq<Row>
    requires count <= limit
  {
    rows[..Min(limit - count, |rows|)]
  }

  lemma NothingToCome(limit: nat, count: nat, rows: seq<Row>)
    requires count <= limit && (count == limit || rows == [])
    ensures Limited(limit, count, rows) == []
  {
  }

  lemma LimitStep(limit: nat, count: nat, before: seq<Row>, row: Row, after: seq<Row>)
    requires count < limit && HandsOut(before, Some(row), after)
    ensures Limited(limit, count, before) == [row] + Limited(limit, count + 1, after)
  {
  }

  // ----- Values -----

  lemma ValueRowsStep(values: seq<seq<Expression>>)
    requires values != []
    ensures ValueRows(values) == [ProjectRow(values[0], [])] + ValueRows(values[1..])
  {
  }

  // ----- Aggregation -----

  lemma EntriesStep(op: UnaryOp, seen: seq<Row>, row: Row)
    requires op.Aggregation?
    ensures EntriesOf(op.groupBys, op.aggregates, seen + [row])
         == EntriesOf(op.groupBys, op.aggregates, seen)
          + [Entry(ProjectRow(op.groupBys, row), ProjectRow(op.aggregates, row))]
  {
  }

  lemma EntriesConcat(op: UnaryOp, a: seq<Row>, b: seq<Row>)
    requires op.Aggregation?
    ensures EntriesOf(op.groupBys, op.aggregates, a + b)
         == EntriesOf(op.groupBys, op.aggregates, a) + EntriesOf(op.groupBys, op.aggregates, b)
  {
  }

  /** Once an insertion has thrown, no later row makes up for it. */
  lemma {:induction false} FailureStays(types: seq<AggregationType>, es: seq<Entry>, later: seq<Entry>)
    requires EntriesFit(types, es + later) && EntriesFit(types, es) && TableOf(types, es).None?
    ensures TableOf(types, es + later).None?
  {
    if later == [] {
      assert es + later == es;
    } else {
      var front := later[..|later| - 1];
      assert (es + later)[..|es + later| - 1] == es + front;
      FailureStays(types, es, front);
    }
  }

  /** The table after one more row. */
  lemma TableStep(op: UnaryOp, seen: seq<Row>, row: Row, later: seq<Row>)
    requires op.Aggregation? && EntriesFit(op.aggTypes, EntriesOf(op.groupBys, op.aggregates, seen + ([row] + later)))
    requires EntriesFit(op.aggTypes, EntriesOf(op.groupBys, op.aggregates, seen))
    requires TableOf(op.aggTypes, EntriesOf(op.groupBys, op.aggregates, seen)).Some?
    ensures var types := op.aggTypes;
            var e := Entry(ProjectRow(op.groupBys, row), ProjectRow(op.aggregates, row));
            && |e.inputs| == |types|
            && EntriesFit(types, EntriesOf(op.groupBys, op.aggregates, seen + [row]))
            && TableOf(types, EntriesOf(op.groupBys, op.aggregates, seen + [row]))
               == InsertCombine(types, TableOf(types, EntriesOf(op.groupBys, op.aggregates, seen)).value, e)
  {
    Reassociate(seen, [row], later);
    EntriesConcat(op, seen + [row], later);
    EntriesStep(op, seen, row);
    var es := EntriesOf(op.groupBys, op.aggregates, seen + [row]);
    assert es[|es| - 1] in es + EntriesOf(op.groupBys, op.aggregates, later);
    assert es[..|es| - 1] == EntriesOf(op.groupBys, op.aggregates, seen);
  }

  lemma TableFailsEarly(op: UnaryOp, seen: seq<Row>, later: seq<Row>)
    requires op.Aggregation? && EntriesFit(op.aggTypes, EntriesOf(op.groupBys, op.aggregates, seen + later))
    requires EntriesFit(op.aggTypes, EntriesOf(op.groupBys, op.aggregates, seen))
    requires TableOf(op.aggTypes, EntriesOf(op.groupBys, op.aggregates, seen)).None?
    ensures TableOf(op.aggTypes, EntriesOf(op.groupBys, op.aggregates, seen + later)).None?
  {
    EntriesConcat(op, seen, later);
    FailureStays(op.aggTypes, EntriesOf(op.groupBys, op.aggregates, seen),
                 EntriesOf(op.groupBys, op.aggregates, later));
  }

  lemma GroupRowsStep(t: Table, order: seq<Row>)
    requires order != [] && forall k :: k in order ==> k in t
    ensures order[0] in t && GroupRows(t, order) == [order[0] + t[order[0]]] + GroupRows(t, order[1..])
  {
  }

  lemma SingleKey(order: seq<Row>, key: Row)
    requires Enumerates(order, {key})
    ensures order == [key]
  {
    assert |order| > 1 ==> order[0] != order[1];
    assert key in order;
    forall i | 0 <= i < |order|
      ensures order[i] == key
    {
      assert order[i] in order;
    }
  }

  /** The single entry for no rows at all. */
  lemma OneGroup(aggTypes: seq<AggregationType>, t: Table, order: seq<Row>)
    requires t == map[[] := InitialValues(aggTypes)] && Enumerates(order, t.Keys)
    ensures GroupRows(t, order) == [InitialValues(aggTypes)]
  {
    assert t.Keys == {[]};
    SingleKey(order, []);
    assert [] + InitialValues(aggTypes) == InitialValues(aggTypes);
  }
}
