/**
 * Mixed-width integer arithmetic with overflow detection after the fact. Operands are promoted as
 * C++ does (to 32 bits, or to 64 if one operand has 64), every intermediate result wraps around in
 * two's complement, and the code looks at the wrapped results to decide whether to throw.
 */
module CheckedArithmetic {
  import opened Types

  datatype Outcome = Result(value: Value) | OutOfRange | DivideByZero

  /** static_cast to a signed type: wrap-around in two's complement. */
  function Cast(ty: TypeId, n: int): (m: int)
    requires IsInteger(ty)
    ensures Fits(ty, m)
    ensures Fits(ty, n) ==> m == n
  {
    match ty
    case TINYINT => (n + 0x80) % 0x100 - 0x80
    case SMALLINT => (n + 0x8000) % 0x1_0000 - 0x8000
    case INTEGER => (n + 0x8000_0000) % 0x1_0000_0000 - 0x8000_0000
    case BIGINT => (n + 0x8000_0000_0000_0000) % 0x1_0000_0000_0000_0000 - 0x8000_0000_0000_0000
  }

  lemma CastIsCongruent(ty: TypeId, n: int) returns (k: int)
    requires IsInteger(ty)
    ensures Cast(ty, n) == n - 2 * Half(ty) * k
  {
    k := (n + Half(ty)) / (2 * Half(ty));
  }

  /** The type in which C++ computes an operation on the two operands. */
  function Promoted(l: TypeId, r: TypeId): TypeId {
    if l == BIGINT || r == BIGINT then BIGINT else INTEGER
  }

  /** The type of the result: the left one unless the right one is wider. */
  function Wider(l: TypeId, r: TypeId): TypeId {
    if SizeOf(l) >= SizeOf(r) then l else r
  }

  /** C++ division truncates toward zero. */
  function TruncDiv(x: int, y: int): int
    requires y != 0
  {
    if (x >= 0) == (y > 0) then Abs(x) / Abs(y) else -(Abs(x) / Abs(y))
  }

  function TruncMod(x: int, y: int): int
    requires y != 0
  {
    x - TruncDiv(x, y) * y
  }

  function Abs(x: int): nat {
    if x < 0 then -x else x
  }

  /** The operands of the operations: stored in their type and not NULL. */
  predicate Operand(ty: TypeId, x: int) {
    IsInteger(ty) && -Half(ty) < x < Half(ty)
  }

  /** AddValue's tests on the wrapped sum and on its casts to the two operand types. */
  function AddChecked(l: TypeId, x: int, r: TypeId, y: int, sum: int, sum1: int, sum2: int): Outcome
    requires IsInteger(l) && IsInteger(r) && Fits(l, sum1) && Fits(r, sum2)
  {
    if sum != sum1 && sum != sum2 then OutOfRange
    else if SizeOf(l) >= SizeOf(r) then
      if (x > 0 && y > 0 && sum1 < 0) || (x < 0 && y < 0 && sum1 > 0) then OutOfRange
      else Result(MakeInt(l, sum1))
    else if (x > 0 && y > 0 && sum2 < 0) || (x < 0 && y < 0 && sum2 > 0) then OutOfRange
    else Result(MakeInt(r, sum2))
  }

  function AddValue(l: TypeId, x: int, r: TypeId, y: int): Outcome
    requires IsInteger(l) && IsInteger(r)
  {
    var sum := Cast(Promoted(l, r), x + y);
    AddChecked(l, x, r, y, sum, Cast(l, sum), Cast(r, sum))
  }

  function SubtractChecked(l: TypeId, x: int, r: TypeId, y: int, diff: int, diff1: int, diff2: int): Outcome
    requires IsInteger(l) && IsInteger(r) && Fits(l, diff1) && Fits(r, diff2)
  {
    if diff != diff1 && diff != diff2 then OutOfRange
    else if SizeOf(l) >= SizeOf(r) then
      if (x > 0 && y < 0 && diff1 < 0) || (x < 0 && y > 0 && diff1 > 0) then OutOfRange
      else Result(MakeInt(l, diff1))
    else if (x > 0 && y < 0 && diff2 < 0) || (x < 0 && y > 0 && diff2 > 0) then OutOfRange
    else Result(MakeInt(r, diff2))
  }

  function SubtractValue(l: TypeId, x: int, r: TypeId, y: int): Outcome
    requires IsInteger(l) && IsInteger(r)
  {
    var diff := Cast(Promoted(l, r), x - y);
    SubtractChecked(l, x, r, y, diff, Cast(l, diff), Cast(r, diff))
  }

  function MultiplyChecked(l: TypeId, x: int, r: TypeId, y: int, prod: int, prod1: int, prod2: int): Outcome
    requires IsInteger(l) && IsInteger(r) && Fits(l, prod1) && Fits(r, prod2)
  {
    if prod != prod1 && prod != prod2 then OutOfRange
    else if SizeOf(l) >= SizeOf(r) then
      if y != 0 && Cast(Promoted(l, r), TruncDiv(prod1, y)) != x then OutOfRange
      else Result(MakeInt(l, prod1))
    else if y != 0 && Cast(Promoted(l, r), TruncDiv(prod2, y)) != x then OutOfRange
    else Result(MakeInt(r, prod2))
  }

  function MultiplyValue(l: TypeId, x: int, r: TypeId, y: int): Outcome
    requires IsInteger(l) && IsInteger(r)
  {
    var prod := Cast(Promoted(l, r), x * y);
    MultiplyChecked(l, x, r, y, prod, Cast(l, prod), Cast(r, prod))
  }

  function DivideValue(l: TypeId, x: int, r: TypeId, y: int): Outcome
    requires IsInteger(l) && IsInteger(r)
  {
    if y == 0 then DivideByZero
    else
      var quot := Cast(Promoted(l, r), TruncDiv(x, y));
      if SizeOf(l) >= SizeOf(r) then Result(MakeInt(l, Cast(l, quot))) else Result(MakeInt(r, Cast(r, quot)))
  }

  function ModuloValue(l: TypeId, x: int, r: TypeId, y: int): Outcome
    requires IsInteger(l) && IsInteger(r)
  {
    if y == 0 then DivideByZero
    else
      var rem := Cast(Promoted(l, r), TruncMod(x, y));
      if SizeOf(l) >= SizeOf(r) then Result(MakeInt(l, Cast(l, rem))) else Result(MakeInt(r, Cast(r, rem)))
  }

  /** What the operations promise: the exact result in the wider operand type, or an exception. */
  function Exact(ty: TypeId, n: int): Outcome
    requires IsInteger(ty)
  {
    if Fits(ty, n) then Result(MakeInt(ty, n)) else OutOfRange
  }

  /** Wrap-around by at most one turn. */
  lemma CastNear(ty: TypeId, n: int)
    requires IsInteger(ty) && -3 * Half(ty) <= n < 3 * Half(ty)
    ensures Cast(ty, n) ==
            if n < -Half(ty) then n + 2 * Half(ty) else if n >= Half(ty) then n - 2 * Half(ty) else n
  {
    match ty
    case TINYINT =>
    case SMALLINT =>
    case INTEGER =>
    case BIGINT =>
  }

  predicate IsCast(ty: TypeId, n: int, m: int) {
    Fits(ty, m) && (Fits(ty, n) ==> m == n)
  }

  /** `m` is `n` wrapped by at most one turn. */
  predicate Wrapped(ty: TypeId, n: int, m: int) {
    m == if n < -Half(ty) then n + 2 * Half(ty) else if n >= Half(ty) then n - 2 * Half(ty) else n
  }

  lemma AddDecision(l: TypeId, x: int, r: TypeId, y: int, sum: int, sum1: int, sum2: int)
    requires Operand(l, x) && Operand(r, y)
    requires Wrapped(Promoted(l, r), x + y, sum) && IsCast(l, sum, sum1) && IsCast(r, sum, sum2)
    ensures AddChecked(l, x, r, y, sum, sum1, sum2) == Exact(Wider(l, r), x + y)
  {
  }

  lemma SubtractDecision(l: TypeId, x: int, r: TypeId, y: int, diff: int, diff1: int, diff2: int)
    requires Operand(l, x) && Operand(r, y)
    requires Wrapped(Promoted(l, r), x - y, diff) && IsCast(l, diff, diff1) && IsCast(r, diff, diff2)
    ensures SubtractChecked(l, x, r, y, diff, diff1, diff2) == Exact(Wider(l, r), x - y)
  {
  }

  lemma AddIsExact(l: TypeId, x: int, r: TypeId, y: int)
    requires Operand(l, x) && Operand(r, y)
    ensures AddValue(l, x, r, y) == Exact(Wider(l, r), x + y)
  {
    var sum := Cast(Promoted(l, r), x + y);
    CastNear(Promoted(l, r), x + y);
    AddDecision(l, x, r, y, sum, Cast(l, sum), Cast(r, sum));
  }

  lemma SubtractIsExact(l: TypeId, x: int, r: TypeId, y: int)
    requires Operand(l, x) && Operand(r, y)
    ensures SubtractValue(l, x, r, y) == Exact(Wider(l, r), x - y)
  {
    var diff := Cast(Promoted(l, r), x - y);
    CastNear(Promoted(l, r), x - y);
    SubtractDecision(l, x, r, y, diff, Cast(l, diff), Cast(r, diff));
  }

  lemma MulAtLeast(a: nat, b: nat)
    requires a > 0
    ensures a * b >= b
  {
    assert a * b == (a - 1) * b + b;
  }

  lemma AbsOfProduct(a: int, b: int)
    ensures Abs(a * b) == Abs(a) * Abs(b)
  {
  }

  /** A multiple of `m` that is smaller than `m` is zero. */
  lemma SmallMultiple(m: int, k: int)
    requires Abs(m * k) < Abs(m)
    ensures k == 0
  {
    AbsOfProduct(m, k);
    if k != 0 {
      MulAtLeast(Abs(k), Abs(m));
      assert false;
    }
  }

  /** `q` and `m` are quotient and remainder of the division that truncates toward zero. */
  predicate Truncates(x: int, y: int, q: int, m: int) {
    x == q * y + m && Abs(m) < Abs(y) && (x >= 0 ==> m >= 0) && (x <= 0 ==> m <= 0)
  }

  lemma DivModNat(a: nat, b: nat) returns (q: nat, m: nat)
    requires b > 0
    ensures q == a / b && a == q * b + m && m < b && m <= a && q <= a
  {
    q, m := a / b, a % b;
    assert a == b * q + m;
    MulAtLeast(b, q);
  }

  lemma TruncDivMod(x: int, y: int)
    requires y != 0
    ensures Truncates(x, y, TruncDiv(x, y), TruncMod(x, y))
    ensures Abs(TruncDiv(x, y)) <= Abs(x) && Abs(TruncMod(x, y)) <= Abs(x)
  {
    var q, m := DivModNat(Abs(x), Abs(y));
    var t := TruncDiv(x, y);
    assert t == if (x >= 0) == (y > 0) then q else -q;
    assert t * y == if x >= 0 then q * Abs(y) else -(q * Abs(y));
  }

  /** The division test of MultiplyValue: dividing the wrapped product gives `x` back only if nothing wrapped. */
  lemma DivisionExposesWrap(h: int, x: int, y: int, k: int, q: int, m: int)
    requires h > 0 && -h < x < h && -h < y < h
    requires Truncates(x * y - 2 * h * k, y, q, m)
    ensures q == x <==> k == 0
  {
    if q == x {
      assert m == -(2 * h * k);
      SmallMultiple(2 * h, k);
    } else if k == 0 {
      assert y * (x - q) == m;
      SmallMultiple(y, x - q);
    }
  }

  lemma DivisionTestIsExact(ty: TypeId, x: int, y: int, prod: int, k: int)
    requires Operand(ty, x) && Operand(ty, y) && y != 0
    requires Fits(ty, prod) && prod == x * y - 2 * Half(ty) * k
    ensures Cast(ty, TruncDiv(prod, y)) == x <==> prod == x * y
  {
    var q := TruncDiv(prod, y);
    TruncDivMod(prod, y);
    DivisionExposesWrap(Half(ty), x, y, k, q, TruncMod(prod, y));
    CastNear(ty, q);
  }

  lemma MultiplyDecision(l: TypeId, x: int, r: TypeId, y: int, product: int, prod: int, prod1: int, prod2: int)
    requires Operand(l, x) && Operand(r, y)
    requires IsCast(Promoted(l, r), product, prod) && IsCast(l, prod, prod1) && IsCast(r, prod, prod2)
    requires y == 0 ==> product == 0
    requires y != 0 ==> (Cast(Promoted(l, r), TruncDiv(prod, y)) == x <==> prod == product)
    ensures MultiplyChecked(l, x, r, y, prod, prod1, prod2) == Exact(Wider(l, r), product)
  {
  }

  lemma MultiplyIsExact(l: TypeId, x: int, r: TypeId, y: int)
    requires Operand(l, x) && Operand(r, y)
    ensures MultiplyValue(l, x, r, y) == Exact(Wider(l, r), x * y)
  {
    var p := Promoted(l, r);
    assert Operand(p, x) && Operand(p, y);
    var prod := Cast(p, x * y);
    var k := CastIsCongruent(p, x * y);
    if y != 0 {
      DivisionTestIsExact(p, x, y, prod, k);
    }
    MultiplyDecision(l, x, r, y, x * y, prod, Cast(l, prod), Cast(r, prod));
  }

  /** Casting a number of the wider type leaves it alone. */
  lemma CastsInTurn(l: TypeId, r: TypeId, n: int)
    requires IsInteger(l) && IsInteger(r) && Fits(Wider(l, r), n)
    ensures Cast(Wider(l, r), Cast(Promoted(l, r), n)) == n
  {
  }

  /** Division and modulo never leave the wider type, and together they are exact. */
  lemma DivideAndModuloAreExact(l: TypeId, x: int, r: TypeId, y: int)
    requires Operand(l, x) && Operand(r, y)
    ensures y == 0 ==> DivideValue(l, x, r, y) == DivideByZero == ModuloValue(l, x, r, y)
    ensures y != 0 ==>
              var q, m := TruncDiv(x, y), TruncMod(x, y);
              Truncates(x, y, q, m) && DivideValue(l, x, r, y) == Result(Int(Wider(l, r), q))
              && ModuloValue(l, x, r, y) == Result(Int(Wider(l, r), m))
  {
    if y != 0 {
      var q, m := TruncDiv(x, y), TruncMod(x, y);
      TruncDivMod(x, y);
      RemainderStaysInType(l, x, r, y, q, m);
      CastsInTurn(l, r, q);
      CastsInTurn(l, r, m);
    }
  }

  lemma RemainderStaysInType(l: TypeId, x: int, r: TypeId, y: int, q: int, m: int)
    requires Operand(l, x) && Operand(r, y) && Abs(q) <= Abs(x) && Abs(m) <= Abs(x)
    ensures -Half(Wider(l, r)) < q < Half(Wider(l, r)) && -Half(Wider(l, r)) < m < Half(Wider(l, r))
  {
  }
}
