/** Small shared vocabulary: bytes, C `int` range, optional values and the
    sequential clamps the C code writes as two `if` statements. */
module Base {

  /** One byte as read from or written to an I/O port or the register block. */
  type Byte = x: int | 0 <= x < 256

  /** The value range of a 32-bit C `int`. */
  predicate IsInt32(x: int) {
    -0x8000_0000 <= x < 0x8000_0000
  }

  datatype Option<+T> = None | Some(value: T)

  function Max(a: int, b: int): int {
    if a > b then a else b
  }

  function Min(a: int, b: int): int {
    if a < b then a else b
  }

  function Abs(x: int): nat {
    if x < 0 then -x else x
  }

  function AbsReal(x: real): real {
    if x < 0.0 then -x else x
  }

  /** `if (x > hi) x = hi; if (x < lo) x = lo;` -- the order the C code uses
      for the integral accumulator and the PID output. */
  function ClampHighFirst(x: real, lo: real, hi: real): (r: real)
    ensures lo <= hi ==> lo <= r <= hi
    ensures lo <= x <= hi ==> r == x
    ensures x > hi && lo <= hi ==> r == hi
    ensures x < lo ==> r == lo
  {
    var y := if x > hi then hi else x;
    if y < lo then lo else y
  }

  /** `if (x < lo) x = lo; if (x > hi) x = hi;` -- the order the C code uses
      for the tuned gains. */
  function ClampLowFirst(x: real, lo: real, hi: real): (r: real)
    ensures lo <= hi ==> lo <= r <= hi
    ensures lo <= x <= hi ==> r == x
    ensures x > hi ==> r == hi
    ensures x < lo && lo <= hi ==> r == lo
  {
    var y := if x < lo then lo else x;
    if y > hi then hi else y
  }

  lemma ClampHighFirstMonotone(x: real, y: real, lo: real, hi: real)
    requires x <= y
    ensures ClampHighFirst(x, lo, hi) <= ClampHighFirst(y, lo, hi)
  {
  }

  /** C conversion of a `double` to `int`: truncation toward zero. */
  function Trunc(x: real): (r: int)
    ensures x >= 0.0 ==> r as real <= x < r as real + 1.0
    ensures x < 0.0 ==> r as real - 1.0 < x <= r as real
  {
    if x >= 0.0 then x.Floor else -((-x).Floor)
  }

  /** C integer division: the quotient truncates toward zero, unlike
      Dafny's Euclidean `/` when an operand is negative. */
  function CDiv(a: int, b: int): (q: int)
    requires b != 0
    ensures Abs(q) == Abs(a) / Abs(b)
    ensures q > 0 ==> (a > 0) == (b > 0)
    ensures q < 0 ==> (a > 0) != (b > 0)
  {
    var m := Abs(a) / Abs(b);
    assert a == 0 ==> m == 0;
    if (a < 0) == (b < 0) then m else -m
  }

  /** Multiplying by a non-negative factor keeps the order. */
  lemma MulMono(a: int, b: int, c: nat)
    requires a <= b
    ensures a * c <= b * c
  {
  }

  /** Euclidean division by a positive divisor keeps the order. */
  lemma DivMonotone(a: int, b: int, m: int)
    requires m > 0 && a <= b
    ensures a / m <= b / m
  {
    var qa, qb := a / m, b / m;
    assert m * qa + a % m == a && m * qb + b % m == b;
    if qa > qb {
      MulMono(qb + 1, qa, m);
    }
  }
}
