/** What each row-at-a-time operator makes of the rows of its children. */
module RowOperators {
  import opened Sequences
  import opened Types
  import opened Expressions

  datatype JoinType = INNER | LEFT

  type Test = Row -> bool

  // ----- Selecting and joining rows -----

  /** The rows that pass the test, in order. */
  function Keep(test: Test, rows: seq<Row>): (out: seq<Row>)
    ensures |out| <= |rows|
  {
    if rows == [] then []
    else (if test(rows[0]) then [rows[0]] else []) + Keep(test, rows[1..])
  }

  lemma {:induction false} KeepMembers(test: Test, rows: seq<Row>)
    ensures forall r :: r in Keep(test, rows) <==> r in rows && test(r)
  {
    if rows != [] {
      KeepMembers(test, rows[1..]);
      assert forall r :: r in rows <==> r == rows[0] || r in rows[1..];
    }
  }

  lemma KeepCons(test: Test, row: Row, rows: seq<Row>)
    ensures Keep(test, [row] + rows) == (if test(row) then [row] else []) + Keep(test, rows)
  {
    assert ([row] + rows)[1..] == rows;
  }

  lemma {:induction false} KeepDistributes(test: Test, a: seq<Row>, b: seq<Row>)
    ensures Keep(test, a + b) == Keep(test, a) + Keep(test, b)
  {
    if a == [] {
      assert a + b == b;
    } else {
      var first, rest := if test(a[0]) then [a[0]] else [], a[1..];
      assert a + b == [a[0]] + (rest + b);
      KeepCons(test, a[0], rest + b);
      KeepDistributes(test, rest, b);
      Reassociate(first, Keep(test, rest), Keep(test, b));
    }
  }

  lemma {:induction false} KeepOfKeep(f: Test, g: Test, both: Test, rows: seq<Row>)
    requires forall r :: r in rows ==> both(r) == (f(r) && g(r))
    ensures Keep(f, Keep(g, rows)) == Keep(both, rows)
  {
    if rows != [] {
      KeepOfKeep(f, g, both, rows[1..]);
      if g(rows[0]) {
        KeepCons(f, rows[0], Keep(g, rows[1..]));
      } else {
        assert Keep(g, rows) == Keep(g, rows[1..]);
      }
    }
  }

  /** A weaker test keeps at least as many rows, and as many only if the tests agree on the rows. */
  lemma {:induction false} KeepMore(f: Test, g: Test, rows: seq<Row>)
    requires forall r :: r in rows && f(r) ==> g(r)
    ensures |Keep(f, rows)| <= |Keep(g, rows)|
    ensures Keep(f, rows) == Keep(g, rows) <==> forall r :: r in rows ==> f(r) == g(r)
    ensures |Keep(f, rows)| == |Keep(g, rows)| ==> Keep(f, rows) == Keep(g, rows)
  {
    if rows != [] {
      KeepMore(f, g, rows[1..]);
      assert forall r :: r in rows <==> r == rows[0] || r in rows[1..];
    }
  }

  /** One left row in front of each right row. */
  function JoinWith(l: Row, rs: seq<Row>): (out: seq<Row>)
    ensures |out| == |rs|
    ensures forall i :: 0 <= i < |rs| ==> out[i] == l + rs[i]
  {
    if rs == [] then [] else [l + rs[0]] + JoinWith(l, rs[1..])
  }

  lemma {:induction false} KeepOfJoin(f: Test, g: Test, l: Row, rs: seq<Row>)
    requires forall r :: r in rs ==> f(l + r) == g(r)
    ensures Keep(f, JoinWith(l, rs)) == JoinWith(l, Keep(g, rs))
  {
    if rs != [] {
      KeepOfJoin(f, g, l, rs[1..]);
      KeepCons(f, l + rs[0], JoinWith(l, rs[1..]));
      assert ([rs[0]] + Keep(g, rs[1..]))[1..] == Keep(g, rs[1..]);
    }
  }

  // ----- Filter, scan and projection -----

  /** A filter or join lets a row through if its predicate is true, neither false nor NULL. */
  predicate Passes(v: Option<Value>) {
    v.Some? && v.value.IsTrue()
  }

  function FilterTest(pred: Expression): Test {
    (r: Row) => Passes(pred.Evaluate(r))
  }

  function FilterRows(pred: Expression, rows: seq<Row>): seq<Row> {
    Keep(FilterTest(pred), rows)
  }

  /** A predicate merged into a scan is read with GetAs<bool> and no NULL test. */
  predicate ScanPasses(v: Option<Value>) {
    v.Some? && v.value.GetAsBool()
  }

  function ScanTest(filter: Option<Expression>): Test {
    (r: Row) => filter.None? || ScanPasses(filter.value.Evaluate(r))
  }

  function ScanRows(filter: Option<Expression>, rows: seq<Row>): seq<Row> {
    Keep(ScanTest(filter), rows)
  }

  predicate ReadsNullAsTrue(pred: Expression, row: Row) {
    pred.Evaluate(row).Some? && NullReadsTrue(pred.Evaluate(row).value)
  }

  /** A scan with a merged predicate outputs what the filter did exactly if no row yields a NULL that reads as true. */
  lemma MergedScanIsFilterIff(pred: Expression, rows: seq<Row>)
    ensures ScanRows(Some(pred), rows) == FilterRows(pred, rows)
            <==> forall r :: r in rows ==> !ReadsNullAsTrue(pred, r)
  {
    forall r: Row
      ensures ScanPasses(pred.Evaluate(r)) <==> Passes(pred.Evaluate(r)) || ReadsNullAsTrue(pred, r)
      ensures ReadsNullAsTrue(pred, r) ==> !Passes(pred.Evaluate(r))
    {
      if pred.Evaluate(r).Some? {
        GetAsBoolVersusIsTrue(pred.Evaluate(r).value);
      }
    }
    KeepMore(FilterTest(pred), ScanTest(Some(pred)), rows);
  }

  /** The values of the expressions on the row; a throwing expression has no value to contribute. */
  function ProjectRow(exprs: seq<Expression>, row: Row): Row {
    if exprs == [] then []
    else
      var v := exprs[0].Evaluate(row);
      (if v.Some? then [v.value] else []) + ProjectRow(exprs[1..], row)
  }

  function ProjectRows(exprs: seq<Expression>, rows: seq<Row>): (out: seq<Row>)
    ensures |out| == |rows|
    ensures forall i :: 0 <= i < |rows| ==> out[i] == ProjectRow(exprs, rows[i])
  {
    if rows == [] then [] else [ProjectRow(exprs, rows[0])] + ProjectRows(exprs, rows[1..])
  }

  // ----- Nested loop join -----

  function NullRow(types: seq<TypeId>): (row: Row)
    ensures RowHasTypes(row, types)
  {
    seq(|types|, i requires 0 <= i < |types| => Null(types[i]))
  }

  function MatchTest(pred: Expression, l: Row): Test {
    (r: Row) => Passes(pred.EvaluateJoin(l, r))
  }

  /** The left row joined with each matching right row, in the order of the right rows. */
  function Matches(pred: Expression, l: Row, rs: seq<Row>): seq<Row> {
    JoinWith(l, Keep(MatchTest(pred, l), rs))
  }

  /** Everything the join outputs for one left row. */
  function JoinOne(pred: Expression, joinType: JoinType, rightTypes: seq<TypeId>, l: Row, rs: seq<Row>): seq<Row> {
    var m := Matches(pred, l, rs);
    if m == [] && joinType == LEFT then [l + NullRow(rightTypes)] else m
  }

  function NestedLoopRows(pred: Expression, joinType: JoinType, rightTypes: seq<TypeId>, ls: seq<Row>, rs: seq<Row>)
    : seq<Row>
  {
    if ls == [] then []
    else JoinOne(pred, joinType, rightTypes, ls[0], rs) + NestedLoopRows(pred, joinType, rightTypes, ls[1..], rs)
  }

  predicate HasMatch(pred: Expression, l: Row, rs: seq<Row>) {
    exists r :: r in rs && Passes(pred.EvaluateJoin(l, r))
  }

  /** What the join may output for a left row: matching pairs, or a padded row where a left join finds none. */
  predicate IsJoined(pred: Expression, joinType: JoinType, types: seq<TypeId>, l: Row, rs: seq<Row>, row: Row) {
    || (exists r :: r in rs && Passes(pred.EvaluateJoin(l, r)) && row == l + r)
    || (joinType == LEFT && !HasMatch(pred, l, rs) && row == l + NullRow(types))
  }

  lemma {:induction false} JoinWithMembers(l: Row, rs: seq<Row>, row: Row)
    ensures row in JoinWith(l, rs) <==> exists r :: r in rs && row == l + r
  {
    if rs != [] {
      JoinWithMembers(l, rs[1..], row);
      assert forall r :: r in rs <==> r == rs[0] || r in rs[1..];
    }
  }

  lemma JoinOneMembers(pred: Expression, joinType: JoinType, types: seq<TypeId>, l: Row, rs: seq<Row>, row: Row)
    ensures row in JoinOne(pred, joinType, types, l, rs) <==> IsJoined(pred, joinType, types, l, rs, row)
  {
    var kept := Keep(MatchTest(pred, l), rs);
    KeepMembers(MatchTest(pred, l), rs);
    JoinWithMembers(l, kept, row);
    HasMember(kept);
  }

  /** The rows of a join are the matching pairs, and for a left join each left row without a match, padded. */
  lemma {:induction false} NestedLoopMembers(pred: Expression, joinType: JoinType, types: seq<TypeId>, ls: seq<Row>,
                                             rs: seq<Row>, row: Row)
    ensures row in NestedLoopRows(pred, joinType, types, ls, rs) <==>
              exists l :: l in ls && IsJoined(pred, joinType, types, l, rs, row)
  {
    if ls != [] {
      JoinOneMembers(pred, joinType, types, ls[0], rs, row);
      NestedLoopMembers(pred, joinType, types, ls[1..], rs, row);
      assert forall l :: l in ls <==> l == ls[0] || l in ls[1..];
    }
  }

  // ----- Hash join -----

  /** The bytes HashValue hashes: one for a boolean, eight (sign extended) for every integer width. */
  datatype HashKey = BoolByte(raw: int) | Int64(raw: int)

  type HashFunction = HashKey -> int

  function KeyBytes(v: Value): HashKey {
    if v.TypeOf() == BOOLEAN then BoolByte(v.Raw()) else Int64(v.Raw())
  }

  function HashValue(hash: HashFunction, v: Value): int {
    hash(KeyBytes(v))
  }

  /** CompareEquals implies equal hashes, for any hash function and any two widths. */
  lemma EqualValuesHashAlike(hash: HashFunction, x: Value, y: Value)
    requires Compare(Equal, x, y) == Some(CmpTrue)
    ensures HashValue(hash, x) == HashValue(hash, y)
  {
  }

  /** What is hashed tells values apart exactly if they compare unequal, NULLs aside. */
  lemma KeyBytesAgreeIff(x: Value, y: Value)
    requires x.HasType(x.TypeOf()) && y.HasType(y.TypeOf()) && !x.IsNull() && !y.IsNull()
    ensures KeyBytes(x) == KeyBytes(y) <==> Compare(Equal, x, y) == Some(CmpTrue)
  {
  }

  function HashTest(hash: HashFunction, key: Expression, h: int): Test {
    (r: Row) => key.Evaluate(r).Some? && HashValue(hash, key.Evaluate(r).value) == h
  }

  function KeyTest(key: Expression, k: Value): Test {
    (r: Row) => key.Evaluate(r).Some? && Compare(Equal, key.Evaluate(r).value, k) == Some(CmpTrue)
  }

  datatype HashSpec = HashSpec(hash: HashFunction, leftKey: Expression, rightKey: Expression, joinType: JoinType,
                               rightTypes: seq<TypeId>)
  {
    /** The right rows the hash table holds under the hash of `k`, in arrival order. */
    function Bucket(k: Value, rs: seq<Row>): seq<Row> {
      Keep(HashTest(hash, rightKey, HashValue(hash, k)), rs)
    }

    /** The left row joined with the rows of the bucket whose key equals its own. */
    function Probe(k: Value, l: Row, bucket: seq<Row>): seq<Row> {
      JoinWith(l, Keep(KeyTest(rightKey, k), bucket))
    }

    /** Everything the join outputs for one left row: padding depends on the bucket, not on its matches. */
    function JoinOne(l: Row, rs: seq<Row>): seq<Row> {
      var k := leftKey.Evaluate(l);
      if k.None? then []
      else if Bucket(k.value, rs) != [] then Probe(k.value, l, Bucket(k.value, rs))
      else if joinType == LEFT then [l + NullRow(rightTypes)]
      else []
    }

    function JoinRows(ls: seq<Row>, rs: seq<Row>): seq<Row> {
      if ls == [] then [] else JoinOne(ls[0], rs) + JoinRows(ls[1..], rs)
    }

    /** A left row with this key finds an equal key in its bucket, if the bucket is not empty. */
    predicate Covered(k: Value, rs: seq<Row>) {
      Bucket(k, rs) == [] || exists r :: r in rs && KeyTest(rightKey, k)(r)
    }

    predicate BucketsCover(ls: seq<Row>, rs: seq<Row>) {
      forall l :: l in ls && leftKey.Evaluate(l).Some? ==> Covered(leftKey.Evaluate(l).value, rs)
    }
  }

  /** The equality of column `a` of the left row and column `b` of the right row, in either operand order. */
  datatype EquiJoin = EquiJoin(a: nat, aType: TypeId, b: nat, bType: TypeId, swapped: bool)
  {
    function Predicate(): Expression {
      var l, r := ColumnValue(0, a, aType), ColumnValue(1, b, bType);
      if swapped then Binary(Comparison(Equal), r, l) else Binary(Comparison(Equal), l, r)
    }

    function Spec(hash: HashFunction, joinType: JoinType, types: seq<TypeId>): HashSpec {
      HashSpec(hash, ColumnValue(0, a, aType), ColumnValue(0, b, bType), joinType, types)
    }

    /** The left key column exists in every left row. */
    predicate Fits(ls: seq<Row>) {
      forall l :: l in ls ==> a < |l|
    }

    lemma PredicateComparesKeys(l: Row, r: Row)
      requires a < |l|
      ensures MatchTest(Predicate(), l)(r) == KeyTest(ColumnValue(0, b, bType), l[a])(r)
    {
      var x, y := ColumnValue(0, a, aType).EvaluateJoin(l, r), ColumnValue(1, b, bType).EvaluateJoin(l, r);
      assert x == Some(l[a]);
      if b < |r| {
        assert y == Some(r[b]);
        assert Compare(Equal, r[b], l[a]) == Compare(Equal, l[a], r[b]);
        assert Predicate().EvaluateJoin(l, r) == Comparison(Equal).Apply(l[a], r[b]);
      }
    }

    /** Probing one bucket finds the matches of the nested loop in the same order, whatever else collides. */
    lemma ProbeFindsMatches(hash: HashFunction, l: Row, rs: seq<Row>)
      requires a < |l|
      ensures var s := Spec(hash, INNER, []); s.Probe(l[a], l, s.Bucket(l[a], rs)) == Matches(Predicate(), l, rs)
    {
      var key := ColumnValue(0, b, bType);
      forall r | r in rs
        ensures MatchTest(Predicate(), l)(r) ==
                (KeyTest(key, l[a])(r) && HashTest(hash, key, HashValue(hash, l[a]))(r))
      {
        PredicateComparesKeys(l, r);
        if KeyTest(key, l[a])(r) {
          EqualValuesHashAlike(hash, key.Evaluate(r).value, l[a]);
        }
      }
      KeepOfKeep(KeyTest(key, l[a]), HashTest(hash, key, HashValue(hash, l[a])), MatchTest(Predicate(), l), rs);
    }

    /** An inner hash join outputs the rows of the nested loop join in the same order. */
    lemma {:induction false} InnerHashJoinIsNestedLoop(hash: HashFunction, types: seq<TypeId>, ls: seq<Row>,
                                                       rs: seq<Row>)
      requires Fits(ls)
      ensures Spec(hash, INNER, types).JoinRows(ls, rs) == NestedLoopRows(Predicate(), INNER, types, ls, rs)
      decreases ls
    {
      if ls != [] {
        ProbeFindsMatches(hash, ls[0], rs);
        InnerHashJoinIsNestedLoop(hash, types, ls[1..], rs);
      }
    }

    lemma LeftJoinOne(hash: HashFunction, types: seq<TypeId>, l: Row, rs: seq<Row>)
      requires a < |l|
      ensures var spec := Spec(hash, LEFT, types);
              var nested := JoinOne(Predicate(), LEFT, types, l, rs);
              if spec.Covered(l[a], rs) then spec.JoinOne(l, rs) == nested else |spec.JoinOne(l, rs)| < |nested|
    {
      var spec := Spec(hash, LEFT, types);
      ProbeFindsMatches(hash, l, rs);
      assert spec.Probe(l[a], l, spec.Bucket(l[a], rs)) == Matches(Predicate(), l, rs);
      forall r | r in rs
        ensures MatchTest(Predicate(), l)(r) == KeyTest(spec.rightKey, l[a])(r)
      {
        PredicateComparesKeys(l, r);
      }
      KeepMembers(MatchTest(Predicate(), l), rs);
      if Keep(MatchTest(Predicate(), l), rs) != [] {
        var r := Keep(MatchTest(Predicate(), l), rs)[0];
        assert r in rs && KeyTest(spec.rightKey, l[a])(r);
      }
    }

    /**
     * The left hash join drops a left row that only finds unequal keys in its bucket. It agrees with
     * the nested loop join exactly when no left row meets such a bucket, and is shorter otherwise.
     */
    lemma {:induction false} LeftHashJoinIsNestedLoopIff(hash: HashFunction, types: seq<TypeId>, ls: seq<Row>,
                                                         rs: seq<Row>)
      requires Fits(ls)
      ensures var spec := Spec(hash, LEFT, types);
              var nested := NestedLoopRows(Predicate(), LEFT, types, ls, rs);
              && (spec.JoinRows(ls, rs) == nested <==> spec.BucketsCover(ls, rs))
              && |spec.JoinRows(ls, rs)| <= |nested|
              && (!spec.BucketsCover(ls, rs) ==> |spec.JoinRows(ls, rs)| < |nested|)
      decreases ls
    {
      if ls != [] {
        LeftJoinOne(hash, types, ls[0], rs);
        LeftHashJoinIsNestedLoopIff(hash, types, ls[1..], rs);
        assert forall l :: l in ls <==> l == ls[0] || l in ls[1..];
      }
    }
  }

  // ----- A filter merged into the join below it -----

  predicate HasWidth(n: nat, rows: seq<Row>) {
    forall r :: r in rows ==> |r| == n
  }

  predicate AlwaysTrue(pred: Expression) {
    pred.Constant? && pred.val.IsTrue()
  }

  lemma {:induction false} KeepAll(test: Test, rows: seq<Row>)
    requires forall r :: r in rows ==> test(r)
    ensures Keep(test, rows) == rows
  {
    if rows != [] {
      KeepAll(test, rows[1..]);
    }
  }

  lemma {:induction false} KeepNone(test: Test, rows: seq<Row>)
    requires forall r :: r in rows ==> !test(r)
    ensures Keep(test, rows) == []
  {
    if rows != [] {
      KeepNone(test, rows[1..]);
    }
  }

  lemma AllPairsMatch(always: Expression, l: Row, rs: seq<Row>)
    requires AlwaysTrue(always)
    ensures Matches(always, l, rs) == JoinWith(l, rs)
  {
    KeepAll(MatchTest(always, l), rs);
  }

  function JoinedTest(pred: Expression, l: Row): Test {
    (r: Row) => Passes(pred.Evaluate(l + r))
  }

  /** The rewritten predicate matches a left row with the right rows that pass the filter behind it. */
  lemma RewrittenMatches(pred: Expression, joined: Expression, l: Row, rs: seq<Row>, n: nat)
    requires HasWidth(n, rs) && ColumnsBelow(pred, |l| + n) && RewriteForJoin(pred, |l|, n) == Some(joined)
    ensures Matches(joined, l, rs) == JoinWith(l, Keep(JoinedTest(pred, l), rs))
  {
    forall r | r in rs
      ensures JoinedTest(pred, l)(r) == MatchTest(joined, l)(r)
    {
      RewritePreservesValue(pred, l, r);
    }
    KeepMore(JoinedTest(pred, l), MatchTest(joined, l), rs);
  }

  /** A join on a constant: on true every pair matches, on NULL none does. */
  predicate ConstantJoin(always: Expression) {
    AlwaysTrue(always) || always == Constant(Null(BOOLEAN))
  }

  /**
   * When a filter over a join on such a constant keeps of a left row what a join on the filter's predicate
   * makes of it. On true: always for an inner join; for a left join if some joined row passes, or, without
   * right rows, the padded one. On NULL: for an inner join if no joined row passes; for a left join if the
   * padded row passes, and no joined row but at most one equal to it.
   */
  predicate MergeAgrees(pred: Expression, always: Expression, joinType: JoinType, types: seq<TypeId>, l: Row,
                        rs: seq<Row>) {
    var kept := Keep(JoinedTest(pred, l), rs);
    if AlwaysTrue(always) then
      joinType == INNER || (if rs == [] then JoinedTest(pred, l)(NullRow(types)) else kept != [])
    else if joinType == INNER then kept == []
    else JoinedTest(pred, l)(NullRow(types)) && kept <= [NullRow(types)]
  }

  predicate MergeAgreesAll(pred: Expression, always: Expression, joinType: JoinType, types: seq<TypeId>, ls: seq<Row>,
                           rs: seq<Row>) {
    forall l :: l in ls ==> MergeAgrees(pred, always, joinType, types, l, rs)
  }

  /** The join on the constant for one left row. */
  lemma ConstantJoinOne(always: Expression, joinType: JoinType, types: seq<TypeId>, l: Row, rs: seq<Row>)
    requires ConstantJoin(always)
    ensures JoinOne(always, joinType, types, l, rs)
         == if AlwaysTrue(always) && rs != [] then JoinWith(l, rs)
            else if joinType == LEFT then [l + NullRow(types)] else []
  {
    if AlwaysTrue(always) {
      AllPairsMatch(always, l, rs);
    } else {
      KeepNone(MatchTest(always, l), rs);
    }
  }

  /** What the filter keeps of it. */
  lemma FilteredOne(pred: Expression, always: Expression, joinType: JoinType, types: seq<TypeId>, l: Row, rs: seq<Row>)
    requires ConstantJoin(always)
    ensures FilterRows(pred, JoinOne(always, joinType, types, l, rs))
         == if AlwaysTrue(always) && rs != [] then JoinWith(l, Keep(JoinedTest(pred, l), rs))
            else if joinType == LEFT && JoinedTest(pred, l)(NullRow(types)) then [l + NullRow(types)] else []
  {
    ConstantJoinOne(always, joinType, types, l, rs);
    KeepOfJoin(FilterTest(pred), JoinedTest(pred, l), l, rs);
    KeepCons(FilterTest(pred), l + NullRow(types), []);
    assert [l + NullRow(types)] + [] == [l + NullRow(types)];
  }

  /** What the join on the filter's predicate makes of it. */
  lemma RewrittenOne(pred: Expression, joined: Expression, joinType: JoinType, types: seq<TypeId>, l: Row, rs: seq<Row>)
    requires HasWidth(|types|, rs) && ColumnsBelow(pred, |l| + |types|)
    requires RewriteForJoin(pred, |l|, |types|) == Some(joined)
    ensures var kept := Keep(JoinedTest(pred, l), rs);
            JoinOne(joined, joinType, types, l, rs)
            == if kept != [] then JoinWith(l, kept) else if joinType == LEFT then [l + NullRow(types)] else []
  {
    RewrittenMatches(pred, joined, l, rs, |types|);
  }

  lemma JoinedIsPadded(l: Row, kept: seq<Row>, row: Row)
    ensures JoinWith(l, kept) == [l + row] <==> kept == [row]
  {
    if |kept| == 1 {
      assert JoinWith(l, kept)[0] == l + kept[0];
      assert (l + kept[0])[|l|..] == kept[0] && (l + row)[|l|..] == row;
    }
  }

  /** On one left row the filter keeps at most as many rows as the merged join outputs, and the same if they agree. */
  lemma MergedOne(pred: Expression, joined: Expression, always: Expression, joinType: JoinType, types: seq<TypeId>,
                  l: Row, rs: seq<Row>)
    requires ConstantJoin(always) && HasWidth(|types|, rs) && ColumnsBelow(pred, |l| + |types|)
    requires RewriteForJoin(pred, |l|, |types|) == Some(joined)
    ensures var filtered := FilterRows(pred, JoinOne(always, joinType, types, l, rs));
            var merged := JoinOne(joined, joinType, types, l, rs);
            && |filtered| <= |merged|
            && (filtered == merged <==> MergeAgrees(pred, always, joinType, types, l, rs))
  {
    FilteredOne(pred, always, joinType, types, l, rs);
    RewrittenOne(pred, joined, joinType, types, l, rs);
    JoinedIsPadded(l, Keep(JoinedTest(pred, l), rs), NullRow(types));
  }

  lemma ChunksAgree(a: seq<Row>, b: seq<Row>, c: seq<Row>, d: seq<Row>)
    requires |a| <= |c| && |b| <= |d|
    ensures a + b == c + d <==> a == c && b == d
  {
    if a + b == c + d {
      assert |a| == |c|;
      assert a == (a + b)[..|a|] && b == (a + b)[|a|..];
      assert c == (c + d)[..|c|] && d == (c + d)[|c|..];
    }
  }

  /**
   * A filter over a join on a constant that is true or NULL, against a join of the same type on the rewritten
   * predicate: they agree exactly if they do on every left row, and otherwise the join outputs other rows.
   */
  lemma {:induction false} FilterOverJoinIff(pred: Expression, always: Expression, joinType: JoinType,
                                             types: seq<TypeId>, ls: seq<Row>, rs: seq<Row>, m: nat)
    requires ConstantJoin(always) && HasWidth(m, ls) && HasWidth(|types|, rs) && ColumnsBelow(pred, m + |types|)
    ensures RewriteForJoin(pred, m, |types|).Some?
    ensures var filtered := FilterRows(pred, NestedLoopRows(always, joinType, types, ls, rs));
            var merged := NestedLoopRows(RewriteForJoin(pred, m, |types|).value, joinType, types, ls, rs);
            && |filtered| <= |merged|
            && (filtered == merged <==> MergeAgreesAll(pred, always, joinType, types, ls, rs))
  {
    RewriteSucceedsIff(pred, m, |types|);
    if ls != [] {
      var joined, l, rest := RewriteForJoin(pred, m, |types|).value, ls[0], ls[1..];
      MergedOne(pred, joined, always, joinType, types, l, rs);
      FilterOverJoinIff(pred, always, joinType, types, rest, rs, m);
      KeepDistributes(FilterTest(pred), JoinOne(always, joinType, types, l, rs),
                      NestedLoopRows(always, joinType, types, rest, rs));
      ChunksAgree(FilterRows(pred, JoinOne(always, joinType, types, l, rs)),
                  FilterRows(pred, NestedLoopRows(always, joinType, types, rest, rs)),
                  JoinOne(joined, joinType, types, l, rs), NestedLoopRows(joined, joinType, types, rest, rs));
      assert forall x :: x in ls <==> x == l || x in rest;
    }
  }
}
