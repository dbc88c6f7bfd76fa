/**
 * Aggregate functions and the aggregation hash table, as functions of the rows combined so far,
 * and what they mean: SQL's folds over each group.
 */
module Aggregates {
  import opened Types
  import opened Sequences
  import CheckedArithmetic

  datatype AggregationType =
    | CountStarAggregate | CountAggregate | SumAggregate | MinAggregate | MaxAggregate

  const ONE := Int(INTEGER, 1)

  /** Value::Add on integers; None where it throws. */
  function AddValues(l: Value, r: Value): Option<Value> {
    if !IsInteger(l.TypeOf()) || !IsInteger(r.TypeOf()) then None
    else if l.IsNull() || r.IsNull() then Some(Null(CheckedArithmetic.Wider(l.TypeOf(), r.TypeOf())))
    else
      match CheckedArithmetic.AddValue(l.TypeOf(), l.Raw(), r.TypeOf(), r.Raw())
      case Result(v) => Some(v)
      case _ => None
  }

  /** Min and Max of two values, neither of them NULL: the right one unless the left one wins. */
  function Better(op: ComparisonType, l: Value, r: Value): Option<Value> {
    match Compare(op, l, r)
    case Some(c) => Some(if c == CmpTrue then l else r)
    case None => None
  }

  /** The value an aggregate has before any row. */
  function Initial(ty: AggregationType): Value {
    if ty == CountStarAggregate then Int(INTEGER, 0) else Null(INTEGER)
  }

  /** One case of CombineAggregateValues. */
  function Combine(ty: AggregationType, acc: Value, input: Value): Option<Value> {
    match ty
    case CountStarAggregate => AddValues(acc, ONE)
    case CountAggregate =>
      var count := if acc.IsNull() then Int(INTEGER, 0) else acc;
      if input.IsNull() then Some(count) else AddValues(count, ONE)
    case SumAggregate =>
      if acc.IsNull() then Some(input) else if input.IsNull() then Some(acc) else AddValues(acc, input)
    case MinAggregate =>
      if acc.IsNull() then Some(input) else if input.IsNull() then Some(acc) else Better(LessThan, acc, input)
    case MaxAggregate =>
      if acc.IsNull() then Some(input) else if input.IsNull() then Some(acc) else Better(GreaterThanOrEqual, acc, input)
  }

  /** The running value after the inputs, combined in order. */
  function Fold(ty: AggregationType, inputs: seq<Value>): Option<Value> {
    if inputs == [] then Some(Initial(ty))
    else
      match Fold(ty, inputs[..|inputs| - 1])
      case Some(acc) => Combine(ty, acc, inputs[|inputs| - 1])
      case None => None
  }

  // ----- SQL's meaning of the aggregates -----

  predicate AllHaveType(ty: TypeId, inputs: seq<Value>) {
    forall v :: v in inputs ==> v.HasType(ty)
  }

  function SumOf(weight: Value -> int, inputs: seq<Value>): int {
    if inputs == [] then 0 else SumOf(weight, inputs[..|inputs| - 1]) + weight(inputs[|inputs| - 1])
  }

  /** How many inputs are not NULL. */
  function NonNulls(inputs: seq<Value>): int {
    SumOf((v: Value) => if v.IsNull() then 0 else 1, inputs)
  }

  /** The mathematical sum of the inputs that are not NULL. */
  function Total(inputs: seq<Value>): int {
    SumOf((v: Value) => if v.IsNull() then 0 else v.Raw(), inputs)
  }

  function SqlSum(ty: TypeId, inputs: seq<Value>): Value {
    if NonNulls(inputs) == 0 then Null(ty) else Int(ty, Total(inputs))
  }

  /** Every partial sum is a number of the type that does not encode NULL. */
  predicate PartialSumsFit(ty: TypeId, inputs: seq<Value>) {
    forall k :: 0 <= k <= |inputs| ==> -Half(ty) < Total(inputs[..k]) < Half(ty)
  }

  /** Counting one more throws exactly where the count no longer fits. */
  lemma AddOne(n: nat)
    requires n < Half(INTEGER)
    ensures AddValues(Int(INTEGER, n), ONE) == if n + 1 < Half(INTEGER) then Some(Int(INTEGER, n + 1)) else None
  {
    CheckedArithmetic.AddIsExact(INTEGER, n, INTEGER, 1);
  }

  /** COUNT(*) is the number of rows, and throws exactly if that does not fit. */
  lemma {:induction false} CountStarCountsRows(inputs: seq<Value>)
    ensures Fold(CountStarAggregate, inputs)
         == if |inputs| < Half(INTEGER) then Some(Int(INTEGER, |inputs|)) else None
  {
    if inputs != [] {
      CountStarCountsRows(inputs[..|inputs| - 1]);
      if |inputs| - 1 < Half(INTEGER) {
        AddOne(|inputs| - 1);
      }
    }
  }

  lemma {:induction false} NonNullsBounds(inputs: seq<Value>)
    ensures 0 <= NonNulls(inputs) <= |inputs|
  {
    if inputs != [] {
      NonNullsBounds(inputs[..|inputs| - 1]);
    }
  }

  /** COUNT over no rows is NULL; else it is the number of inputs that are not NULL, and throws if that does not fit. */
  lemma {:induction false} CountCountsNonNulls(inputs: seq<Value>)
    ensures Fold(CountAggregate, inputs)
         == if inputs == [] then Some(Null(INTEGER))
            else if NonNulls(inputs) < Half(INTEGER) then Some(Int(INTEGER, NonNulls(inputs))) else None
  {
    if inputs != [] {
      var front := inputs[..|inputs| - 1];
      CountCountsNonNulls(front);
      NonNullsBounds(front);
      assert NonNulls(inputs) == NonNulls(front) + (if inputs[|inputs| - 1].IsNull() then 0 else 1);
      if NonNulls(front) < Half(INTEGER) && !inputs[|inputs| - 1].IsNull() {
        AddOne(NonNulls(front));
      }
    }
  }

  /** The number a running sum stands for, a NULL one counting as zero. */
  function Running(acc: Value): int {
    if acc.IsNull() then 0 else acc.Raw()
  }

  lemma PartialSumsStep(ty: TypeId, inputs: seq<Value>)
    requires inputs != []
    ensures var front, last := inputs[..|inputs| - 1], inputs[|inputs| - 1];
            && Total(inputs) == Total(front) + Running(last)
            && NonNulls(inputs) == NonNulls(front) + (if last.IsNull() then 0 else 1)
            && (PartialSumsFit(ty, inputs) <==> PartialSumsFit(ty, front) && -Half(ty) < Total(inputs) < Half(ty))
  {
    var front := inputs[..|inputs| - 1];
    assert inputs[..|inputs|] == inputs;
    assert forall k :: 0 <= k <= |front| ==> inputs[..k] == front[..k];
  }

  /** One step of the running sum in terms of exact arithmetic. */
  function AddToSum(ty: TypeId, acc: Value, input: Value): Option<Value>
    requires IsInteger(ty)
  {
    if acc.IsNull() then Some(input)
    else if input.IsNull() then Some(acc)
    else if Fits(ty, acc.Raw() + input.Raw()) then Some(MakeInt(ty, acc.Raw() + input.Raw()))
    else None
  }

  lemma SumStepIsExact(ty: TypeId, acc: Value, input: Value)
    requires IsInteger(ty) && input.HasType(ty) && (acc.HasType(ty) || acc.IsNull())
    ensures Combine(SumAggregate, acc, input) == AddToSum(ty, acc, input)
  {
    if !acc.IsNull() && !input.IsNull() {
      CheckedArithmetic.AddIsExact(ty, acc.Raw(), ty, input.Raw());
    }
  }

  /**
   * The state of a sum: `total` is the exact sum of `count` non-NULL inputs, `exact` says that no
   * partial sum has left the type or met its smallest number. An inexact sum has silently started
   * again after that number, which encodes NULL, and is off by at least that number for good.
   */
  predicate SumState(ty: TypeId, sum: Value, total: int, count: nat, exact: bool) {
    && (sum.IsNull() || sum.HasType(ty))
    && (exact ==> (sum.IsNull() <==> count == 0) && Running(sum) == total)
    && (!exact ==> count > 0 && total - Running(sum) <= -Half(ty))
  }

  lemma SumStateStep(ty: TypeId, sum: Value, total: int, count: nat, exact: bool, input: Value)
    requires IsInteger(ty) && input.HasType(ty) && SumState(ty, sum, total, count, exact)
    requires count == 0 ==> total == 0
    ensures var next := AddToSum(ty, sum, input);
            var total', count' := total + Running(input), count + (if input.IsNull() then 0 else 1);
            var exact' := exact && -Half(ty) < total' < Half(ty);
            && (next.Some? ==> SumState(ty, next.value, total', count', exact'))
            && (next.None? ==> !exact')
  {
  }

  lemma {:induction false} RunningSum(ty: TypeId, inputs: seq<Value>)
    requires IsInteger(ty) && AllHaveType(ty, inputs)
    ensures NonNulls(inputs) >= 0 && (NonNulls(inputs) == 0 ==> Total(inputs) == 0)
    ensures var sum := Fold(SumAggregate, inputs);
            && (sum.Some? ==> SumState(ty, sum.value, Total(inputs), NonNulls(inputs), PartialSumsFit(ty, inputs)))
            && (sum.Some? && inputs != [] ==> sum.value.HasType(ty))
            && (sum.None? ==> !PartialSumsFit(ty, inputs))
  {
    if inputs == [] {
      assert forall k :: 0 <= k <= |inputs| ==> inputs[..k] == [];
    } else {
      var front, last := inputs[..|inputs| - 1], inputs[|inputs| - 1];
      RunningSum(ty, front);
      PartialSumsStep(ty, inputs);
      if Fold(SumAggregate, front).Some? {
        var sum := Fold(SumAggregate, front).value;
        SumStepIsExact(ty, sum, last);
        SumStateStep(ty, sum, Total(front), NonNulls(front), PartialSumsFit(ty, front), last);
      }
    }
  }

  lemma SumStateIsSqlSumIff(ty: TypeId, sum: Value, total: int, count: nat, exact: bool)
    requires IsInteger(ty) && SumState(ty, sum, total, count, exact) && sum.HasType(ty)
    ensures sum == (if count == 0 then Null(ty) else Int(ty, total)) <==> exact
  {
  }

  /** SUM is SQL's sum exactly when no partial sum leaves the type or meets its smallest number. */
  lemma SumIsSqlSumIff(ty: TypeId, inputs: seq<Value>)
    requires IsInteger(ty) && inputs != [] && AllHaveType(ty, inputs)
    ensures Fold(SumAggregate, inputs) == Some(SqlSum(ty, inputs)) <==> PartialSumsFit(ty, inputs)
  {
    RunningSum(ty, inputs);
    var sum := Fold(SumAggregate, inputs);
    if sum.Some? {
      SumStateIsSqlSumIff(ty, sum.value, Total(inputs), NonNulls(inputs), PartialSumsFit(ty, inputs));
    }
  }

  /** `m` is what MIN (with LessThanOrEqual) or MAX (with GreaterThanOrEqual) promises. */
  predicate IsExtreme(op: ComparisonType, ty: TypeId, m: Value, inputs: seq<Value>) {
    if m.IsNull() then forall v :: v in inputs ==> v.IsNull()
    else m in inputs && forall v :: v in inputs && !v.IsNull() ==> Holds(op, m.Raw(), v.Raw())
  }

  lemma ExtremeStep(op: ComparisonType, order: ComparisonType, ty: TypeId, m: Value, front: seq<Value>, last: Value)
    requires IsInteger(ty) && AllHaveType(ty, front) && m.HasType(ty) && last.HasType(ty)
    requires (op, order) == (LessThan, LessThanOrEqual) || (op, order) == (GreaterThanOrEqual, GreaterThanOrEqual)
    requires IsExtreme(order, ty, m, front)
    ensures var next := if m.IsNull() then Some(last) else if last.IsNull() then Some(m) else Better(op, m, last);
            next.Some? && next.value.HasType(ty) && IsExtreme(order, ty, next.value, front + [last])
  {
    assert forall v :: v in front + [last] <==> v in front || v == last;
  }

  lemma {:induction false} MinAndMaxAreExtreme(ty: TypeId, inputs: seq<Value>)
    requires IsInteger(ty) && inputs != [] && AllHaveType(ty, inputs)
    ensures var m := Fold(MinAggregate, inputs);
            m.Some? && m.value.HasType(ty) && IsExtreme(LessThanOrEqual, ty, m.value, inputs)
    ensures var m := Fold(MaxAggregate, inputs);
            m.Some? && m.value.HasType(ty) && IsExtreme(GreaterThanOrEqual, ty, m.value, inputs)
  {
    var front, last := inputs[..|inputs| - 1], inputs[|inputs| - 1];
    assert inputs == front + [last];
    if front == [] {
      assert Fold(MinAggregate, front) == Fold(MaxAggregate, front) == Some(Null(INTEGER));
    } else {
      MinAndMaxAreExtreme(ty, front);
      ExtremeStep(LessThan, LessThanOrEqual, ty, Fold(MinAggregate, front).value, front, last);
      ExtremeStep(GreaterThanOrEqual, GreaterThanOrEqual, ty, Fold(MaxAggregate, front).value, front, last);
    }
  }

  // ----- The order of the inputs does not matter -----

  lemma {:induction false} SumOfConcat(weight: Value -> int, a: seq<Value>, b: seq<Value>)
    ensures SumOf(weight, a + b) == SumOf(weight, a) + SumOf(weight, b)
  {
    if b == [] {
      assert a + b == a;
    } else {
      SumOfConcat(weight, a, b[..|b| - 1]);
      assert (a + b)[..|a + b| - 1] == a + b[..|b| - 1];
    }
  }

  lemma {:induction false} SumOfPermutation(weight: Value -> int, a: seq<Value>, b: seq<Value>)
    requires multiset(a) == multiset(b)
    ensures SumOf(weight, a) == SumOf(weight, b)
  {
    if a == [] {
      assert |multiset(b)| == 0;
    } else {
      var front, last := a[..|a| - 1], a[|a| - 1];
      assert a == front + [last];
      var before, after := FindLast(front, last, b);
      SumOfPermutation(weight, front, before + after);
      SumOfConcat(weight, before, after);
      SumOfConcat(weight, before, [last] + after);
      SumOfConcat(weight, [last], after);
      assert SumOf(weight, [last]) == weight(last) by {
        assert [last][..0] == [];
      }
    }
  }

  lemma ExtremeIsUnique(op: ComparisonType, ty: TypeId, a: seq<Value>, b: seq<Value>, x: Value, y: Value)
    requires op == LessThanOrEqual || op == GreaterThanOrEqual
    requires forall v :: v in a <==> v in b
    requires x.HasType(ty) && y.HasType(ty) && IsInteger(ty)
    requires IsExtreme(op, ty, x, a) && IsExtreme(op, ty, y, b)
    ensures x == y
  {
  }

  lemma CountsIgnoreOrder(a: seq<Value>, b: seq<Value>)
    requires multiset(a) == multiset(b)
    ensures NonNulls(a) == NonNulls(b) && Total(a) == Total(b)
  {
    SumOfPermutation((v: Value) => if v.IsNull() then 0 else 1, a, b);
    SumOfPermutation((v: Value) => if v.IsNull() then 0 else v.Raw(), a, b);
  }

  /** SUM, MIN and MAX are aggregates of integers; the others count values of any type. */
  predicate TakesIntegers(ty: AggregationType) {
    ty in {SumAggregate, MinAggregate, MaxAggregate}
  }

  /** Any aggregate is the same, or throws, for any order of its inputs, if no order overflows the sum. */
  lemma FoldIgnoresOrder(ty: AggregationType, a: seq<Value>, b: seq<Value>)
    requires multiset(a) == multiset(b) && (TakesIntegers(ty) ==> AllHaveType(INTEGER, a))
    requires ty == SumAggregate ==> PartialSumsFit(INTEGER, a) && PartialSumsFit(INTEGER, b)
    ensures Fold(ty, a) == Fold(ty, b)
    ensures TakesIntegers(ty) || |a| < Half(INTEGER) ==> Fold(ty, a).Some?
  {
    PermutationHasSameMembers(a, b);
    CountsIgnoreOrder(a, b);
    NonNullsBounds(a);
    if a != [] {
      match ty
      case CountStarAggregate =>
        CountStarCountsRows(a);
        CountStarCountsRows(b);
      case CountAggregate =>
        CountCountsNonNulls(a);
        CountCountsNonNulls(b);
      case SumAggregate =>
        SumIsSqlSumIff(INTEGER, a);
        SumIsSqlSumIff(INTEGER, b);
      case MinAggregate =>
        MinAndMaxAreExtreme(INTEGER, a);
        MinAndMaxAreExtreme(INTEGER, b);
        ExtremeIsUnique(LessThanOrEqual, INTEGER, a, b, Fold(ty, a).value, Fold(ty, b).value);
      case MaxAggregate =>
        MinAndMaxAreExtreme(INTEGER, a);
        MinAndMaxAreExtreme(INTEGER, b);
        ExtremeIsUnique(GreaterThanOrEqual, INTEGER, a, b, Fold(ty, a).value, Fold(ty, b).value);
    }
  }
}
