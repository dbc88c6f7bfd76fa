/** What the operators of SQL mean on values, and that expressions compute it. */
module SqlOperators {
  import opened Types
  import opened Expressions
  import opened RowOperators
  import CheckedArithmetic

  // ----- The meaning of the operators -----

  predicate IsFalse(v: Value) {
    !v.IsNull() && !v.GetAsBool()
  }

  /** False as soon as one side is false, true if both are, else unknown. */
  function SqlAnd(x: Value, y: Value): Value {
    if IsFalse(x) || IsFalse(y) then Bool(false)
    else if x.IsTrue() && y.IsTrue() then Bool(true)
    else Null(BOOLEAN)
  }

  /** True as soon as one side is true, false if both are, else unknown. */
  function SqlOr(x: Value, y: Value): Value {
    if x.IsTrue() || y.IsTrue() then Bool(true)
    else if IsFalse(x) && IsFalse(y) then Bool(false)
    else Null(BOOLEAN)
  }

  /** A comparison whose outcome on the numbers is given: unknown if a side is NULL; None where kinds are mixed. */
  function SqlCompare(x: Value, y: Value, holds: bool): Option<Value> {
    if IsInteger(x.TypeOf()) != IsInteger(y.TypeOf()) then None
    else if x.IsNull() || y.IsNull() then Some(Null(BOOLEAN))
    else Some(Bool(holds))
  }

  /** The INTEGER congruent to the number modulo 2^32; the smallest one is NULL. */
  function Wrapped(n: int): Value {
    var low := (n + 0x8000_0000) % 0x1_0000_0000 - 0x8000_0000;
    if low == -0x8000_0000 then Null(INTEGER) else Int(INTEGER, low)
  }

  /** A sum or difference that is given as a number; None for operands that are not INTEGER. */
  function SqlArithmetic(x: Value, y: Value, n: int): Option<Value> {
    if x.TypeOf() != INTEGER || y.TypeOf() != INTEGER then None
    else if x.IsNull() || y.IsNull() then Some(Null(INTEGER))
    else Some(Wrapped(n))
  }

  /** What the operator of this name means; None for unknown names and where the engine throws. */
  function SqlOperator(name: string, x: Value, y: Value): Option<Value> {
    if name == "=" || name == "==" then SqlCompare(x, y, x.Raw() == y.Raw())
    else if name == "!=" || name == "<>" then SqlCompare(x, y, x.Raw() != y.Raw())
    else if name == "<" then SqlCompare(x, y, x.Raw() < y.Raw())
    else if name == "<=" then SqlCompare(x, y, x.Raw() <= y.Raw())
    else if name == ">" then SqlCompare(x, y, x.Raw() > y.Raw())
    else if name == ">=" then SqlCompare(x, y, x.Raw() >= y.Raw())
    else if name == "+" then SqlArithmetic(x, y, x.Raw() + y.Raw())
    else if name == "-" then SqlArithmetic(x, y, x.Raw() - y.Raw())
    else if name == "and" then Some(SqlAnd(x, y))
    else if name == "or" then Some(SqlOr(x, y))
    else None
  }

  // ----- Expressions compute it -----

  lemma WrappedIsCast(n: int)
    ensures MakeInt(INTEGER, CheckedArithmetic.Cast(INTEGER, n)) == Wrapped(n)
    ensures Wrapped(n).HasType(INTEGER) && (Wrapped(n).Raw() - n) % 0x1_0000_0000 == 0
    ensures -0x8000_0000 < n < 0x8000_0000 ==> Wrapped(n) == Int(INTEGER, n)
  {
  }

  lemma ComparisonMeans(x: Value, y: Value)
    ensures Comparison(Equal).Apply(x, y) == SqlCompare(x, y, x.Raw() == y.Raw())
    ensures Comparison(NotEqual).Apply(x, y) == SqlCompare(x, y, x.Raw() != y.Raw())
    ensures Comparison(LessThan).Apply(x, y) == SqlCompare(x, y, x.Raw() < y.Raw())
    ensures Comparison(LessThanOrEqual).Apply(x, y) == SqlCompare(x, y, x.Raw() <= y.Raw())
    ensures Comparison(GreaterThan).Apply(x, y) == SqlCompare(x, y, x.Raw() > y.Raw())
    ensures Comparison(GreaterThanOrEqual).Apply(x, y) == SqlCompare(x, y, x.Raw() >= y.Raw())
  {
  }

  lemma LogicMeans(x: Value, y: Value)
    ensures Logic(And).Apply(x, y) == Some(SqlAnd(x, y))
    ensures Logic(Or).Apply(x, y) == Some(SqlOr(x, y))
  {
  }

  lemma ArithmeticMeans(x: Value, y: Value)
    ensures Arithmetic(Plus).Apply(x, y) == SqlArithmetic(x, y, x.Raw() + y.Raw())
    ensures Arithmetic(Minus).Apply(x, y) == SqlArithmetic(x, y, x.Raw() - y.Raw())
  {
    WrappedIsCast(x.Raw() + y.Raw());
    WrappedIsCast(x.Raw() - y.Raw());
  }

  function SqlMeaning(op: Operator, x: Value, y: Value): Option<Value> {
    match op
    case Comparison(Equal) => SqlCompare(x, y, x.Raw() == y.Raw())
    case Comparison(NotEqual) => SqlCompare(x, y, x.Raw() != y.Raw())
    case Comparison(LessThan) => SqlCompare(x, y, x.Raw() < y.Raw())
    case Comparison(LessThanOrEqual) => SqlCompare(x, y, x.Raw() <= y.Raw())
    case Comparison(GreaterThan) => SqlCompare(x, y, x.Raw() > y.Raw())
    case Comparison(GreaterThanOrEqual) => SqlCompare(x, y, x.Raw() >= y.Raw())
    case Logic(And) => Some(SqlAnd(x, y))
    case Logic(Or) => Some(SqlOr(x, y))
    case Arithmetic(Plus) => SqlArithmetic(x, y, x.Raw() + y.Raw())
    case Arithmetic(Minus) => SqlArithmetic(x, y, x.Raw() - y.Raw())
  }

  lemma OperatorMeans(op: Operator, x: Value, y: Value)
    ensures op.Apply(x, y) == SqlMeaning(op, x, y)
  {
    match op
    case Comparison(_) => ComparisonMeans(x, y);
    case Logic(_) => LogicMeans(x, y);
    case Arithmetic(_) => ArithmeticMeans(x, y);
  }

  /** The operator on operands of which either may have no value. */
  function OnValues(op: Operator, x: Option<Value>, y: Option<Value>): Option<Value> {
    if x.Some? && y.Some? then SqlMeaning(op, x.value, y.value) else None
  }

  /** An expression means its operator on the values of its left and right operand, over one row as over two. */
  lemma BinaryMeans(op: Operator, l: Expression, r: Expression, row: Row, other: Row)
    ensures Binary(op, l, r).Evaluate(row) == OnValues(op, l.Evaluate(row), r.Evaluate(row))
    ensures Binary(op, l, r).EvaluateJoin(row, other)
         == OnValues(op, l.EvaluateJoin(row, other), r.EvaluateJoin(row, other))
  {
    if l.Evaluate(row).Some? && r.Evaluate(row).Some? {
      OperatorMeans(op, l.Evaluate(row).value, r.Evaluate(row).value);
    }
    if l.EvaluateJoin(row, other).Some? && r.EvaluateJoin(row, other).Some? {
      OperatorMeans(op, l.EvaluateJoin(row, other).value, r.EvaluateJoin(row, other).value);
    }
  }

  // ----- Filters on AND and OR -----

  lemma AndPasses(p: Expression, q: Expression, types: seq<TypeId>, row: Row)
    requires Typed(Binary(Logic(And), p, q), types, []) && RowHasTypes(row, types)
    ensures FilterTest(Binary(Logic(And), p, q))(row) <==> FilterTest(p)(row) && FilterTest(q)(row)
  {
    EvaluateIsSound(p, types, row);
    EvaluateIsSound(q, types, row);
    BinaryMeans(Logic(And), p, q, row, []);
  }

  lemma OrPasses(p: Expression, q: Expression, types: seq<TypeId>, row: Row)
    requires Typed(Binary(Logic(Or), p, q), types, []) && RowHasTypes(row, types)
    ensures FilterTest(Binary(Logic(Or), p, q))(row) <==> FilterTest(p)(row) || FilterTest(q)(row)
  {
    EvaluateIsSound(p, types, row);
    EvaluateIsSound(q, types, row);
    BinaryMeans(Logic(Or), p, q, row, []);
  }

  predicate AllHaveTypes(rows: seq<Row>, types: seq<TypeId>) {
    forall r :: r in rows ==> RowHasTypes(r, types)
  }

  /** A filter on a conjunction is one filter above the other. */
  lemma FilterOnAnd(p: Expression, q: Expression, types: seq<TypeId>, rows: seq<Row>)
    requires Typed(Binary(Logic(And), p, q), types, []) && AllHaveTypes(rows, types)
    ensures FilterRows(Binary(Logic(And), p, q), rows) == FilterRows(p, FilterRows(q, rows))
  {
    forall r | r in rows
      ensures FilterTest(Binary(Logic(And), p, q))(r) == (FilterTest(p)(r) && FilterTest(q)(r))
    {
      AndPasses(p, q, types, r);
    }
    KeepOfKeep(FilterTest(p), FilterTest(q), FilterTest(Binary(Logic(And), p, q)), rows);
  }

  lemma {:induction false} KeepCounts(f: Test, g: Test, both: Test, either: Test, rows: seq<Row>)
    requires forall r :: r in rows ==> both(r) == (f(r) && g(r)) && either(r) == (f(r) || g(r))
    ensures |Keep(either, rows)| + |Keep(both, rows)| == |Keep(f, rows)| + |Keep(g, rows)|
    ensures forall r :: r in Keep(either, rows) <==> r in Keep(f, rows) || r in Keep(g, rows)
  {
    KeepMembers(either, rows);
    KeepMembers(f, rows);
    KeepMembers(g, rows);
    if rows != [] {
      KeepCounts(f, g, both, either, rows[1..]);
    }
  }

  /** A filter on a disjunction keeps what either filter keeps, each row once. */
  lemma FilterOnOr(p: Expression, q: Expression, types: seq<TypeId>, rows: seq<Row>)
    requires Typed(Binary(Logic(Or), p, q), types, []) && AllHaveTypes(rows, types)
    ensures forall r :: r in FilterRows(Binary(Logic(Or), p, q), rows) <==>
                          r in FilterRows(p, rows) || r in FilterRows(q, rows)
    ensures |FilterRows(Binary(Logic(Or), p, q), rows)| + |FilterRows(Binary(Logic(And), p, q), rows)|
         == |FilterRows(p, rows)| + |FilterRows(q, rows)|
  {
    forall r | r in rows
      ensures FilterTest(Binary(Logic(And), p, q))(r) == (FilterTest(p)(r) && FilterTest(q)(r))
      ensures FilterTest(Binary(Logic(Or), p, q))(r) == (FilterTest(p)(r) || FilterTest(q)(r))
    {
      AndPasses(p, q, types, r);
      OrPasses(p, q, types, r);
    }
    KeepCounts(FilterTest(p), FilterTest(q), FilterTest(Binary(Logic(And), p, q)), FilterTest(Binary(Logic(Or), p, q)),
               rows);
  }
}
