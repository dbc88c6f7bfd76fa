/** SQL values, their NULL encoding and the three-valued comparisons on them. */
module Types {

  datatype Option<+T> = None | Some(value: T)

  datatype TypeId = BOOLEAN | TINYINT | SMALLINT | INTEGER | BIGINT

  datatype CmpBool = CmpFalse | CmpTrue | CmpNull

  datatype ComparisonType = Equal | NotEqual | LessThan | LessThanOrEqual | GreaterThan | GreaterThanOrEqual

  predicate IsInteger(ty: TypeId) {
    ty != BOOLEAN
  }

  /** sizeof of the C++ type that stores a value of this SQL type. */
  function SizeOf(ty: TypeId): (n: nat)
    ensures n in {1, 2, 4, 8}
  {
    match ty
    case BOOLEAN => 1
    case TINYINT => 1
    case SMALLINT => 2
    case INTEGER => 4
    case BIGINT => 8
  }

  /** Two to the number of bits of the type, halved: the type stores -Half .. Half-1. */
  function Half(ty: TypeId): (h: int) {
    match ty
    case BOOLEAN => 0x80
    case TINYINT => 0x80
    case SMALLINT => 0x8000
    case INTEGER => 0x8000_0000
    case BIGINT => 0x8000_0000_0000_0000
  }

  function PowerOfTwo(n: nat): int {
    if n == 0 then 1 else 2 * PowerOfTwo(n - 1)
  }

  /** The numbers of a type are those of its size in two's complement. */
  lemma HalfIsPower(ty: TypeId)
    ensures Half(ty) == PowerOfTwo(8 * SizeOf(ty) - 1)
  {
    assert PowerOfTwo(7) == 0x80;
    Doubled(7, 8);
    Doubled(15, 16);
    Doubled(31, 32);
  }

  lemma {:induction false} Doubled(n: nat, m: nat)
    ensures PowerOfTwo(n + m) == PowerOfTwo(n) * PowerOfTwo(m)
  {
    if m > 0 {
      Doubled(n, m - 1);
    }
  }

  predicate Fits(ty: TypeId, i: int) {
    -Half(ty) <= i < Half(ty)
  }

  /**
   * A value as the engine sees it. The smallest number of every integer type encodes NULL, so an
   * `Int` never carries it: see `MakeInt`.
   */
  datatype Value =
    | Null(ty: TypeId)
    | Bool(b: bool)
    | Int(ty: TypeId, i: int)
  {
    predicate IsNull() {
      Null?
    }

    /** The value is a possible value (NULL included) of SQL type `t`. */
    predicate HasType(t: TypeId) {
      match this
      case Null(ty) => ty == t
      case Bool(_) => t == BOOLEAN
      case Int(ty, i) => ty == t && IsInteger(t) && -Half(t) < i < Half(t)
    }

    function TypeOf(): TypeId {
      match this
      case Null(ty) => ty
      case Bool(_) => BOOLEAN
      case Int(ty, _) => ty
    }

    /** The number stored in the value's union, NULL being the smallest one. */
    function Raw(): int {
      match this
      case Null(ty) => -Half(ty)
      case Bool(b) => if b then 1 else 0
      case Int(_, i) => i
    }

    /** GetAs<bool>: reads the lowest byte of the union, whatever the type and NULL or not. */
    predicate GetAsBool() {
      Raw() % 256 != 0
    }

    /** The test a row must pass in a filter or a nested loop join. */
    predicate IsTrue() {
      !IsNull() && GetAsBool()
    }
  }

  /** The Value constructor for integer types: the smallest number is NULL. */
  function MakeInt(ty: TypeId, i: int): (v: Value)
    requires IsInteger(ty) && Fits(ty, i)
    ensures v.HasType(ty) && v.Raw() == i
    ensures v.IsNull() <==> i == -Half(ty)
  {
    if i == -Half(ty) then Null(ty) else Int(ty, i)
  }

  function MakeBool(c: CmpBool): (v: Value)
    ensures v.HasType(BOOLEAN)
    ensures v.IsNull() <==> c == CmpNull
    ensures v.IsTrue() <==> c == CmpTrue
  {
    match c
    case CmpFalse => Bool(false)
    case CmpTrue => Bool(true)
    case CmpNull => Null(BOOLEAN)
  }

  /** CastAs(BOOLEAN): only booleans can be cast; None where it throws. */
  function CastToBoolean(v: Value): Option<Value> {
    if v.TypeOf() == BOOLEAN then Some(v) else None
  }

  /** GetAs<int> of CastAs(INTEGER): throws for booleans and for numbers that do not fit; NULL becomes NULL. */
  function CastToInteger(v: Value): Option<int> {
    match v
    case Null(ty) => if IsInteger(ty) then Some(-Half(INTEGER)) else None
    case Bool(_) => None
    case Int(ty, i) => if ty == BIGINT && !(-Half(INTEGER) < i < Half(INTEGER)) then None else Some(i)
  }

  /** CheckComparable, restricted to the modelled types. */
  predicate Comparable(l: TypeId, r: TypeId) {
    IsInteger(l) <==> IsInteger(r)
  }

  predicate Holds(op: ComparisonType, x: int, y: int) {
    match op
    case Equal => x == y
    case NotEqual => x != y
    case LessThan => x < y
    case LessThanOrEqual => x <= y
    case GreaterThan => x > y
    case GreaterThanOrEqual => x >= y
  }

  /** PerformComparison; None where the engine throws a type error. */
  function Compare(op: ComparisonType, l: Value, r: Value): (c: Option<CmpBool>) {
    if !Comparable(l.TypeOf(), r.TypeOf()) then None
    else if l.IsNull() || r.IsNull() then Some(CmpNull)
    else Some(if Holds(op, l.Raw(), r.Raw()) then CmpTrue else CmpFalse)
  }

  /** A NULL whose lowest byte is not zero: GetAs<bool> takes it for true, the filter for false. */
  predicate NullReadsTrue(v: Value) {
    v == Null(BOOLEAN) || v == Null(TINYINT)
  }

  lemma GetAsBoolVersusIsTrue(v: Value)
    ensures v.GetAsBool() != v.IsTrue() <==> NullReadsTrue(v)
  {
    if v.Null? {
      match v.ty
      case BOOLEAN =>
      case TINYINT =>
      case SMALLINT =>
      case INTEGER =>
      case BIGINT =>
    }
  }
}
