/**
 * Scalar expressions over one row (Evaluate) or over the two rows of a join (EvaluateJoin), their
 * static types, and the rewrite that turns a filter over a join into a join condition.
 */
module Expressions {
  import opened Types
  import CheckedArithmetic

  type Row = seq<Value>

  datatype LogicType = And | Or

  datatype ArithmeticType = Plus | Minus

  /** ComparisonExpression, LogicExpression and ArithmeticExpression are the binary expressions. */
  datatype Operator =
    | Comparison(compType: ComparisonType)
    | Logic(logicType: LogicType)
    | Arithmetic(arithmeticType: ArithmeticType)
  {
    function ReturnType(): TypeId {
      if Arithmetic? then INTEGER else BOOLEAN
    }

    /** The operator applied to the operands' values; None where the engine throws. */
    function Apply(l: Value, r: Value): Option<Value> {
      match this
      case Comparison(op) =>
        (match Compare(op, l, r)
         case Some(c) => Some(MakeBool(c))
         case None => None)
      case Logic(op) => Some(MakeBool(Connect(op, TruthOf(l), TruthOf(r))))
      case Arithmetic(op) => Calculate(op, l, r)
    }

    /** The operand types the engine accepts. */
    predicate Accepts(l: TypeId, r: TypeId) {
      match this
      case Comparison(_) => Comparable(l, r)
      case Logic(_) => l == r == BOOLEAN
      case Arithmetic(_) => l == r == INTEGER
    }
  }

  datatype Expression =
    | ColumnValue(tupleIdx: nat, colIdx: nat, retType: TypeId)
    | Constant(val: Value)
    | Binary(op: Operator, left: Expression, right: Expression)
  {
    function ReturnType(): TypeId {
      match this
      case ColumnValue(_, _, ty) => ty
      case Constant(v) => v.TypeOf()
      case Binary(op, _, _) => op.ReturnType()
    }

    /** Evaluate: the tuple index is ignored. None where the engine throws or reads past the row. */
    function Evaluate(row: Row): Option<Value> {
      match this
      case ColumnValue(_, c, _) => if c < |row| then Some(row[c]) else None
      case Constant(v) => Some(v)
      case Binary(op, left, right) =>
        var l, r := left.Evaluate(row), right.Evaluate(row);
        if l.Some? && r.Some? then op.Apply(l.value, r.value) else None
    }

    /** EvaluateJoin: tuple index 0 is the left row, any other the right row. */
    function EvaluateJoin(leftRow: Row, rightRow: Row): Option<Value> {
      match this
      case ColumnValue(t, c, _) =>
        var row := if t == 0 then leftRow else rightRow;
        if c < |row| then Some(row[c]) else None
      case Constant(v) => Some(v)
      case Binary(op, left, right) =>
        var l, r := left.EvaluateJoin(leftRow, rightRow), right.EvaluateJoin(leftRow, rightRow);
        if l.Some? && r.Some? then op.Apply(l.value, r.value) else None
    }
  }

  function TruthOf(v: Value): CmpBool {
    if v.IsNull() then CmpNull else if v.GetAsBool() then CmpTrue else CmpFalse
  }

  /** Three-valued AND and OR. */
  function Connect(op: LogicType, l: CmpBool, r: CmpBool): CmpBool {
    match op
    case And =>
      if l == CmpFalse || r == CmpFalse then CmpFalse
      else if l == CmpTrue && r == CmpTrue then CmpTrue
      else CmpNull
    case Or =>
      if l == CmpFalse && r == CmpFalse then CmpFalse
      else if l == CmpTrue || r == CmpTrue then CmpTrue
      else CmpNull
  }

  /** 32-bit arithmetic without overflow check: the sum wraps around, and may wrap into NULL. */
  function Calculate(op: ArithmeticType, l: Value, r: Value): Option<Value> {
    if l.TypeOf() != INTEGER || r.TypeOf() != INTEGER then None
    else if l.IsNull() || r.IsNull() then Some(Null(INTEGER))
    else
      var n := if op == Plus then l.Raw() + r.Raw() else l.Raw() - r.Raw();
      Some(MakeInt(INTEGER, CheckedArithmetic.Cast(INTEGER, n)))
  }

  // ----- Static types -----

  predicate RowHasTypes(row: Row, types: seq<TypeId>) {
    |row| == |types| && forall i :: 0 <= i < |row| ==> row[i].HasType(types[i])
  }

  /**
   * The expression only refers to existing columns under their own types, compares comparable
   * values, and passes the type tests of the expression constructors. With no right types it is an
   * expression over a single row.
   */
  predicate Typed(e: Expression, left: seq<TypeId>, right: seq<TypeId>) {
    match e
    case ColumnValue(t, c, ty) =>
      (t == 0 && c < |left| && left[c] == ty) || (t == 1 && c < |right| && right[c] == ty)
    case Constant(v) => v.HasType(v.TypeOf())
    case Binary(op, l, r) =>
      Typed(l, left, right) && Typed(r, left, right) && op.Accepts(l.ReturnType(), r.ReturnType())
  }

  /** Type soundness: a typed expression never throws, and its value has the declared type. */
  lemma {:induction false} EvaluateJoinIsSound(e: Expression, left: seq<TypeId>, right: seq<TypeId>, l: Row, r: Row)
    requires Typed(e, left, right) && RowHasTypes(l, left) && RowHasTypes(r, right)
    ensures e.EvaluateJoin(l, r).Some? && e.EvaluateJoin(l, r).value.HasType(e.ReturnType())
  {
    if e.Binary? {
      EvaluateJoinIsSound(e.left, left, right, l, r);
      EvaluateJoinIsSound(e.right, left, right, l, r);
    }
  }

  lemma {:induction false} EvaluateIsJoinWithNothing(e: Expression, types: seq<TypeId>, row: Row)
    requires Typed(e, types, [])
    ensures e.Evaluate(row) == e.EvaluateJoin(row, [])
  {
    if e.Binary? {
      EvaluateIsJoinWithNothing(e.left, types, row);
      EvaluateIsJoinWithNothing(e.right, types, row);
    }
  }

  lemma EvaluateIsSound(e: Expression, types: seq<TypeId>, row: Row)
    requires Typed(e, types, []) && RowHasTypes(row, types)
    ensures e.Evaluate(row).Some? && e.Evaluate(row).value.HasType(e.ReturnType())
  {
    EvaluateIsJoinWithNothing(e, types, row);
    EvaluateJoinIsSound(e, types, [], row, []);
  }

  // ----- Rewriting a filter predicate into a join condition -----

  /** RewriteExpressionForJoin; None where it throws. */
  function RewriteForJoin(e: Expression, leftCount: nat, rightCount: nat): Option<Expression> {
    match e
    case ColumnValue(t, c, ty) =>
      if t != 0 then None
      else if c < leftCount then Some(ColumnValue(0, c, ty))
      else if c < leftCount + rightCount then Some(ColumnValue(1, c - leftCount, ty))
      else None
    case Constant(v) => Some(e)
    case Binary(op, left, right) =>
      var l, r := RewriteForJoin(left, leftCount, rightCount), RewriteForJoin(right, leftCount, rightCount);
      if l.Some? && r.Some? then Some(Binary(op, l.value, r.value)) else None
  }

  /** Every column reference has tuple index 0 and a column index below `n`. */
  predicate ColumnsBelow(e: Expression, n: nat) {
    match e
    case ColumnValue(t, c, _) => t == 0 && c < n
    case Constant(_) => true
    case Binary(_, l, r) => ColumnsBelow(l, n) && ColumnsBelow(r, n)
  }

  lemma {:induction false} RewriteSucceedsIff(e: Expression, leftCount: nat, rightCount: nat)
    ensures RewriteForJoin(e, leftCount, rightCount).Some? <==> ColumnsBelow(e, leftCount + rightCount)
  {
    if e.Binary? {
      RewriteSucceedsIff(e.left, leftCount, rightCount);
      RewriteSucceedsIff(e.right, leftCount, rightCount);
    }
  }

  /** The rewritten expression on the two rows means what the original means on their concatenation. */
  lemma {:induction false} RewritePreservesValue(e: Expression, l: Row, r: Row)
    requires ColumnsBelow(e, |l| + |r|)
    ensures RewriteForJoin(e, |l|, |r|).Some?
    ensures RewriteForJoin(e, |l|, |r|).value.EvaluateJoin(l, r) == e.Evaluate(l + r)
  {
    if e.Binary? {
      RewritePreservesValue(e.left, l, r);
      RewritePreservesValue(e.right, l, r);
    }
  }

  lemma {:induction false} RewritePreservesTypes(e: Expression, left: seq<TypeId>, right: seq<TypeId>)
    requires Typed(e, left + right, [])
    ensures RewriteForJoin(e, |left|, |right|).Some?
    ensures var f := RewriteForJoin(e, |left|, |right|).value; Typed(f, left, right) && f.ReturnType() == e.ReturnType()
  {
    if e.Binary? {
      RewritePreservesTypes(e.left, left, right);
      RewritePreservesTypes(e.right, left, right);
    }
  }
}
