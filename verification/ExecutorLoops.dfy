/** The loops inside executors that touch no other executor. */
module ExecutorLoops {
  import opened Types
  import opened Expressions
  import opened Ordering
  import opened RowOperators
  import opened Plans
  import opened ExecutorStates

  predicate AllTyped(exprs: seq<Expression>, types: seq<TypeId>) {
    forall e :: e in exprs ==> Typed(e, types, [])
  }

  lemma ProjectRowStep(exprs: seq<Expression>, i: nat, row: Row, done: Row)
    requires i < |exprs| && exprs[i].Evaluate(row).Some?
    ensures done + ProjectRow(exprs[i..], row)
         == (done + [exprs[i].Evaluate(row).value]) + ProjectRow(exprs[i + 1..], row)
  {
    assert exprs[i..][1..] == exprs[i + 1..];
  }

  /** The loops that evaluate a list of expressions on a row: projection, values, aggregate keys and inputs. */
  method EvaluateAll(exprs: seq<Expression>, row: Row, types: seq<TypeId>) returns (values: Row)
    requires AllTyped(exprs, types) && RowHasTypes(row, types)
    ensures values == ProjectRow(exprs, row)
  {
    values := [];
    assert exprs[0..] == exprs && [] + ProjectRow(exprs, row) == ProjectRow(exprs, row);
    for i := 0 to |exprs|
      invariant values + ProjectRow(exprs[i..], row) == ProjectRow(exprs, row)
    {
      EvaluateIsSound(exprs[i], types, row);
      ProjectRowStep(exprs, i, row, values);
      values := values + [exprs[i].Evaluate(row).value];
    }
  }

  /** Matched: a row matches if the predicate is neither NULL nor false. */
  method Matched(pred: Expression, left: seq<TypeId>, right: seq<TypeId>, l: Row, r: Row) returns (b: bool)
    requires Typed(pred, left, right) && RowHasTypes(l, left) && RowHasTypes(r, right)
    ensures b == MatchTest(pred, l)(r)
  {
    EvaluateJoinIsSound(pred, left, right, l, r);
    var value := pred.EvaluateJoin(l, r).value;
    b := !value.IsNull() && value.GetAsBool();
  }

  /** The inner loop of the nested loop join: the first matching right row from the cursor on. */
  method FindMatch(pred: Expression, left: seq<TypeId>, right: seq<TypeId>, l: Row, rs: seq<Row>, from: nat)
    returns (ridx: nat)
    requires from <= |rs| && Typed(pred, left, right) && RowHasTypes(l, left) && RowsHaveTypes(rs, right)
    ensures from <= ridx <= |rs| && (ridx < |rs| ==> MatchTest(pred, l)(rs[ridx]))
    ensures Keep(MatchTest(pred, l), rs[from..]) == Keep(MatchTest(pred, l), rs[ridx..])
  {
    ridx := from;
    while ridx < |rs|
      invariant from <= ridx <= |rs|
      invariant Keep(MatchTest(pred, l), rs[from..]) == Keep(MatchTest(pred, l), rs[ridx..])
    {
      assert rs[ridx] in rs;
      var b := Matched(pred, left, right, l, rs[ridx]);
      if b {
        return;
      }
      assert rs[ridx..] == [rs[ridx]] + rs[ridx + 1..];
      KeepCons(MatchTest(pred, l), rs[ridx], rs[ridx + 1..]);
      ridx := ridx + 1;
    }
  }

  /** The next row for a left row from the cursor on, and where the cursor stands then. */
  method MatchFrom(op: JoinOp, left: seq<TypeId>, right: seq<TypeId>, l: Row, rs: seq<Row>, cursor: int,
                   ghost ls: seq<Row>)
    returns (row: Option<Row>, next: int)
    requires op.NestedLoopJoin? && Typed(op.pred, left, right) && RowHasTypes(l, left) && RowsHaveTypes(rs, right)
    requires -1 <= cursor <= |rs|
    ensures -1 <= next <= |rs| && (row.None? ==> next == -1)
    ensures NestedLoopNow(op, right, l, cursor, ls, rs) == Prepend(row, NestedLoopPending(op, right, l, next, ls, rs))
  {
    var ridx := FindMatch(op.pred, left, right, l, rs, if cursor < 0 then 0 else cursor);
    if ridx < |rs| {
      CursorHits(op, right, l, cursor, ridx, ls, rs);
      return Some(l + rs[ridx]), ridx + 1;
    }
    NothingLeft(op, l, if cursor < 0 then 0 else cursor, rs);
    CursorMisses(op, right, l, cursor, ls, rs);
    next := -1;
    row := if cursor == -1 && op.joinType == LEFT then Some(l + NullRow(right)) else None;
  }

  /** std::sort: any arrangement the comparator allows. */
  method StdSort(orderBys: seq<OrderBy>, rows: seq<Row>) returns (sorted: seq<Row>)
    requires AllSortable(orderBys, rows)
    ensures IsSortOf(orderBys, sorted, rows)
  {
    SortRowsSorts(orderBys, rows);
    sorted := SortRows(orderBys, rows);
  }

  /** top() and pop() of std::priority_queue: takes out some row that precedes none of the others. */
  method PopTop(orderBys: seq<OrderBy>, heap: seq<Row>) returns (top: Row, rest: seq<Row>)
    requires heap != [] && AllSortable(orderBys, heap)
    ensures multiset(heap) == multiset(rest) + multiset{top} && |rest| == |heap| - 1
    ensures forall r :: r in rest ==> !Less(orderBys, top, r)
  {
    top, rest := heap[0], [];
    for i := 1 to |heap|
      invariant multiset(heap[..i]) == multiset(rest) + multiset{top} && |rest| == i - 1
      invariant top in heap && forall r :: r in rest ==> r in heap && !Less(orderBys, top, r)
    {
      assert heap[..i + 1] == heap[..i] + [heap[i]] && heap[i] in heap;
      if Less(orderBys, top, heap[i]) {
        forall r | r in rest + [top]
          ensures !Less(orderBys, heap[i], r)
        {
          LessIsStrictWeakOrder(orderBys, top, heap[i], r);
          LessIsStrictWeakOrder(orderBys, heap[i], top, r);
          LessIsStrictWeakOrder(orderBys, top, r, heap[i]);
        }
        top, rest := heap[i], rest + [top];
      } else {
        rest := rest + [heap[i]];
      }
    }
    assert heap[..|heap|] == heap;
  }

  /** push(), and pop() if there is one row too many. */
  method PushCapped(orderBys: seq<OrderBy>, n: nat, heap: seq<Row>, ghost dropped: seq<Row>, ghost seen: seq<Row>,
                    row: Row)
    returns (pq: seq<Row>, ghost nowDropped: seq<Row>)
    requires HeapState(orderBys, n, heap, dropped, seen) && AllSortable(orderBys, seen + [row])
    ensures HeapState(orderBys, n, pq, nowDropped, seen + [row])
  {
    pq, nowDropped := heap + [row], dropped;
    if |pq| > n {
      PushedSortable(orderBys, heap, dropped, seen, row);
      var top, rest := PopTop(orderBys, pq);
      PushAndPop(orderBys, n, heap, dropped, seen, row, top, rest);
      pq, nowDropped := rest, dropped + [top];
    } else {
      PushRow(orderBys, n, heap, dropped, seen, row);
    }
  }

  lemma PushedSortable(orderBys: seq<OrderBy>, heap: seq<Row>, dropped: seq<Row>, seen: seq<Row>, row: Row)
    requires multiset(seen) == multiset(heap) + multiset(dropped) && AllSortable(orderBys, seen + [row])
    ensures AllSortable(orderBys, heap + [row])
  {
    HeapMembers(heap, dropped, seen);
    forall r | r in heap + [row]
      ensures r in seen + [row]
    {
      assert r in heap || r == row;
    }
  }

  lemma {:induction false} JoinWithDistributes(l: Row, a: seq<Row>, b: seq<Row>)
    ensures JoinWith(l, a + b) == JoinWith(l, a) + JoinWith(l, b)
  {
  }

  lemma ProbeStep(spec: HashSpec, k: Value, l: Row, bucket: seq<Row>, i: nat)
    requires i < |bucket|
    ensures spec.Probe(k, l, bucket[..i + 1])
         == spec.Probe(k, l, bucket[..i]) + (if KeyTest(spec.rightKey, k)(bucket[i]) then [l + bucket[i]] else [])
  {
    var test := KeyTest(spec.rightKey, k);
    assert bucket[..i + 1] == bucket[..i] + [bucket[i]];
    KeepDistributes(test, bucket[..i], [bucket[i]]);
    KeepCons(test, bucket[i], []);
    assert [bucket[i]] + [] == [bucket[i]];
    JoinWithDistributes(l, Keep(test, bucket[..i]), Keep(test, [bucket[i]]));
  }

  /** The body of the probe loop: what one left row contributes, given a table that holds the right rows. */
  method ProbeOne(spec: HashSpec, table: map<int, seq<Row>>, l: Row, ghost rs: seq<Row>) returns (out: seq<Row>)
    requires HoldsBuckets(table, spec.hash, spec.rightKey, rs) && spec.leftKey.Evaluate(l).Some?
    ensures out == spec.JoinOne(l, rs)
  {
    var key := spec.leftKey.Evaluate(l).value;
    var h := HashValue(spec.hash, key);
    out := [];
    assert BucketAt(table, h) == spec.Bucket(key, rs);
    if h in table {
      var bucket := table[h];
      for i := 0 to |bucket|
        invariant out == spec.Probe(key, l, bucket[..i])
      {
        ProbeStep(spec, key, l, bucket, i);
        var rightKey := spec.rightKey.Evaluate(bucket[i]);
        if rightKey.Some? && Compare(Equal, rightKey.value, key) == Some(CmpTrue) {
          out := out + [l + bucket[i]];
        }
      }
      assert bucket[..|bucket|] == bucket;
    } else if spec.joinType == LEFT {
      out := [l + NullRow(spec.rightTypes)];
    }
  }
}
