/** The ORDER BY comparator shared by the sort and the top-N executor. */
module Ordering {
  import opened Sequences
  import opened Types
  import opened Expressions

  datatype OrderByType = INVALID | DEFAULT | ASC | DESC

  datatype OrderBy = OrderBy(orderType: OrderByType, expr: Expression)

  /** static_cast<bool> of a comparison of the two rows' keys: an unknown result counts as true. */
  predicate KeyDecides(op: ComparisonType, e: Expression, a: Row, b: Row) {
    var x, y := e.Evaluate(a), e.Evaluate(b);
    x.Some? && y.Some? && Compare(op, x.value, y.value) != Some(CmpFalse)
  }

  /** The comparator lambda: keys are tried in turn until one decides. */
  predicate Less(orderBys: seq<OrderBy>, a: Row, b: Row) {
    if orderBys == [] then false
    else
      var e := orderBys[0].expr;
      var (before, after) := if orderBys[0].orderType == DESC then (GreaterThan, LessThan) else (LessThan, GreaterThan);
      if KeyDecides(before, e, a, b) then true
      else if KeyDecides(after, e, a, b) then false
      else Less(orderBys[1..], a, b)
  }

  // ----- The comparator on rows without NULL keys is a lexicographic order -----

  /** The key has a value of its declared kind. */
  predicate HasKey(e: Expression, row: Row) {
    e.Evaluate(row).Some? && (IsInteger(e.Evaluate(row).value.TypeOf()) <==> IsInteger(e.ReturnType()))
  }

  predicate HasKeys(orderBys: seq<OrderBy>, row: Row) {
    forall o :: o in orderBys ==> HasKey(o.expr, row)
  }

  predicate NullKey(orderBys: seq<OrderBy>, row: Row) {
    exists o :: o in orderBys && o.expr.Evaluate(row).Some? && o.expr.Evaluate(row).value.IsNull()
  }

  predicate Sortable(orderBys: seq<OrderBy>, row: Row) {
    HasKeys(orderBys, row) && !NullKey(orderBys, row)
  }

  /** The numbers that rank a row: ascending keys as they are, descending keys negated. */
  function Rank(orderBys: seq<OrderBy>, row: Row): (r: seq<int>)
    requires HasKeys(orderBys, row)
    ensures |r| == |orderBys|
  {
    if orderBys == [] then []
    else
      assert HasKey(orderBys[0].expr, row);
      var k := orderBys[0].expr.Evaluate(row).value.Raw();
      [if orderBys[0].orderType == DESC then -k else k] + Rank(orderBys[1..], row)
  }

  predicate LexLess(x: seq<int>, y: seq<int>)
    requires |x| == |y|
  {
    x != [] && (x[0] < y[0] || (x[0] == y[0] && LexLess(x[1..], y[1..])))
  }

  /** Without NULL keys the mixed ASC/DESC comparator compares ranks lexicographically. */
  lemma {:induction false} LessIsLexicographic(orderBys: seq<OrderBy>, a: Row, b: Row)
    requires Sortable(orderBys, a) && Sortable(orderBys, b)
    ensures Less(orderBys, a, b) == LexLess(Rank(orderBys, a), Rank(orderBys, b))
  {
    if orderBys != [] {
      var o := orderBys[0];
      assert HasKey(o.expr, a) && HasKey(o.expr, b);
      assert !o.expr.Evaluate(a).value.IsNull() && !o.expr.Evaluate(b).value.IsNull();
      assert Sortable(orderBys[1..], a) && Sortable(orderBys[1..], b);
      LessIsLexicographic(orderBys[1..], a, b);
      assert Rank(orderBys, a)[1..] == Rank(orderBys[1..], a);
      assert Rank(orderBys, b)[1..] == Rank(orderBys[1..], b);
    }
  }

  lemma {:induction false} LexTrichotomy(x: seq<int>, y: seq<int>)
    requires |x| == |y|
    ensures LexLess(x, y) || LexLess(y, x) || x == y
    ensures !(LexLess(x, y) && LexLess(y, x)) && (x == y ==> !LexLess(x, y))
  {
    if x != [] {
      LexTrichotomy(x[1..], y[1..]);
      assert x == [x[0]] + x[1..] && y == [y[0]] + y[1..];
    }
  }

  lemma {:induction false} LexTransitive(x: seq<int>, y: seq<int>, z: seq<int>)
    requires |x| == |y| == |z| && LexLess(x, y) && LexLess(y, z)
    ensures LexLess(x, z)
  {
    if x[0] == y[0] == z[0] {
      LexTransitive(x[1..], y[1..], z[1..]);
    }
  }

  /** What std::sort and std::priority_queue demand of a comparator. */
  lemma LessIsStrictWeakOrder(orderBys: seq<OrderBy>, a: Row, b: Row, c: Row)
    requires Sortable(orderBys, a) && Sortable(orderBys, b) && Sortable(orderBys, c)
    ensures !(Less(orderBys, a, b) && Less(orderBys, b, a))
    ensures Less(orderBys, a, b) && Less(orderBys, b, c) ==> Less(orderBys, a, c)
    ensures !Less(orderBys, a, b) && !Less(orderBys, b, c) ==> !Less(orderBys, a, c)
  {
    var x, y, z := Rank(orderBys, a), Rank(orderBys, b), Rank(orderBys, c);
    LessIsLexicographic(orderBys, a, b);
    LessIsLexicographic(orderBys, b, a);
    LessIsLexicographic(orderBys, b, c);
    LessIsLexicographic(orderBys, a, c);
    LexTrichotomy(x, y);
    LexTrichotomy(y, z);
    LexTrichotomy(x, z);
    if LexLess(x, y) && LexLess(y, z) {
      LexTransitive(x, y, z);
    }
    if LexLess(y, x) && LexLess(z, y) {
      LexTransitive(z, y, x);
    }
  }

  /** With NULL keys it is not even irreflexive: a row precedes itself exactly when one of its keys is NULL. */
  lemma {:induction false} ReflexiveIffNullKey(orderBys: seq<OrderBy>, a: Row)
    requires HasKeys(orderBys, a)
    ensures Less(orderBys, a, a) <==> NullKey(orderBys, a)
  {
    if orderBys != [] {
      var o, rest := orderBys[0], orderBys[1..];
      assert HasKey(o.expr, a);
      assert forall p :: p in orderBys <==> p == o || p in rest;
      ReflexiveIffNullKey(rest, a);
      if o.expr.Evaluate(a).value.IsNull() {
        assert NullKey(orderBys, a);
      }
    }
  }

  // ----- Sorted sequences -----

  predicate Sorted(orderBys: seq<OrderBy>, rows: seq<Row>) {
    forall i, j :: 0 <= i < j < |rows| ==> !Less(orderBys, rows[j], rows[i])
  }

  predicate AllSortable(orderBys: seq<OrderBy>, rows: seq<Row>) {
    forall r :: r in rows ==> Sortable(orderBys, r)
  }

  predicate IsSortOf(orderBys: seq<OrderBy>, sorted: seq<Row>, rows: seq<Row>) {
    multiset(sorted) == multiset(rows) && Sorted(orderBys, sorted)
  }

  lemma PermutationSortable(orderBys: seq<OrderBy>, rows: seq<Row>, other: seq<Row>)
    requires AllSortable(orderBys, rows) && multiset(rows) == multiset(other)
    ensures AllSortable(orderBys, other) && |rows| == |other|
  {
    PermutationHasSameMembers(rows, other);
  }

  /** Inserts a row behind the rows that do not have to follow it. */
  function Insert(orderBys: seq<OrderBy>, row: Row, rows: seq<Row>): seq<Row> {
    if rows == [] || Less(orderBys, row, rows[0]) then [row] + rows
    else [rows[0]] + Insert(orderBys, row, rows[1..])
  }

  function SortRows(orderBys: seq<OrderBy>, rows: seq<Row>): seq<Row> {
    if rows == [] then [] else Insert(orderBys, rows[0], SortRows(orderBys, rows[1..]))
  }

  lemma {:induction false} InsertKeepsRows(orderBys: seq<OrderBy>, row: Row, rows: seq<Row>)
    ensures multiset(Insert(orderBys, row, rows)) == multiset{row} + multiset(rows)
  {
    if rows != [] {
      assert rows == [rows[0]] + rows[1..];
      InsertKeepsRows(orderBys, row, rows[1..]);
    }
  }

  lemma {:induction false} InsertSorts(orderBys: seq<OrderBy>, row: Row, rows: seq<Row>)
    requires Sorted(orderBys, rows) && AllSortable(orderBys, [row] + rows)
    ensures Sorted(orderBys, Insert(orderBys, row, rows))
  {
    if rows == [] {
    } else if Less(orderBys, row, rows[0]) {
      forall j | 0 <= j < |rows|
        ensures !Less(orderBys, rows[j], row)
      {
        assert row in [row] + rows && rows[j] in [row] + rows && rows[0] in [row] + rows;
        LessIsStrictWeakOrder(orderBys, row, rows[0], rows[j]);
        LessIsStrictWeakOrder(orderBys, rows[j], row, rows[0]);
      }
    } else {
      var rest := Insert(orderBys, row, rows[1..]);
      assert forall r :: r in [row] + rows[1..] ==> r in [row] + rows;
      InsertSorts(orderBys, row, rows[1..]);
      InsertKeepsRows(orderBys, row, rows[1..]);
      forall j | 0 <= j < |rest|
        ensures !Less(orderBys, rest[j], rows[0])
      {
        assert rest[j] in multiset(rest);
      }
    }
  }

  lemma {:induction false} SortRowsSorts(orderBys: seq<OrderBy>, rows: seq<Row>)
    requires AllSortable(orderBys, rows)
    ensures IsSortOf(orderBys, SortRows(orderBys, rows), rows)
  {
    if rows != [] {
      var rest := SortRows(orderBys, rows[1..]);
      SortRowsSorts(orderBys, rows[1..]);
      assert rows == [rows[0]] + rows[1..];
      PermutationSortable(orderBys, rows[1..], rest);
      InsertKeepsRows(orderBys, rows[0], rest);
      InsertSorts(orderBys, rows[0], rest);
    }
  }

  // ----- The first rows of a sort -----

  function Min(a: nat, b: nat): nat {
    if a < b then a else b
  }

  /** `top` is what a limit of `n` lets through of some sort of the rows. */
  ghost predicate IsTopN(orderBys: seq<OrderBy>, n: nat, top: seq<Row>, rows: seq<Row>) {
    exists s :: IsSortOf(orderBys, s, rows) && top == s[..Min(n, |s|)]
  }

  /** Rows that are sorted and not preceded by any row left out start some sort of all rows. */
  lemma SmallestRowsAreTopN(orderBys: seq<OrderBy>, n: nat, top: seq<Row>, dropped: seq<Row>, rows: seq<Row>)
    requires AllSortable(orderBys, rows) && multiset(rows) == multiset(top) + multiset(dropped)
    requires Sorted(orderBys, top) && |top| == Min(n, |rows|)
    requires forall t, d :: t in top && d in dropped ==> !Less(orderBys, d, t)
    ensures IsTopN(orderBys, n, top, rows)
  {
    var rest := SortRows(orderBys, dropped);
    forall d | d in dropped
      ensures Sortable(orderBys, d)
    {
      assert d in multiset(dropped);
      assert d in multiset(rows);
    }
    SortRowsSorts(orderBys, dropped);
    var s := top + rest;
    assert multiset(s) == multiset(rows);
    assert |multiset(s)| == |s| && |multiset(rows)| == |rows|;
    forall i, j | 0 <= i < j < |s|
      ensures !Less(orderBys, s[j], s[i])
    {
      if i < |top| <= j {
        assert s[j] in multiset(rest);
        assert s[i] in top && s[j] in dropped;
      }
    }
    assert IsSortOf(orderBys, s, rows) && top == s[..Min(n, |s|)];
  }
}
