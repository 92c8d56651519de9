/**
 * Small vocabulary shared by the camera modules: an Option type for the
 * source's nullable values, and the Kotlin numeric operations whose meaning
 * differs from Dafny's (coerceIn, truncating `/` and `%`, Float.toInt).
 */
module Numerics {

  /** A nullable value of the source (`T?`). */
  datatype Option<T> = None | Some(value: T)

  function Abs(x: int): nat
  {
    if x < 0 then -x else x
  }

  function Min(a: int, b: int): int
  {
    if a <= b then a else b
  }

  function Max(a: int, b: int): int
  {
    if a >= b then a else b
  }

  /**
   * Kotlin's `x.coerceIn(lo, hi)`. Kotlin throws on an empty range, so the
   * range must be non-empty. Values inside pass through; values outside
   * are moved to the nearer end.
   */
  function CoerceIn(x: int, lo: int, hi: int): (r: int)
    requires lo <= hi
    ensures lo <= r <= hi
    ensures lo <= x <= hi ==> r == x
    ensures x < lo ==> r == lo
    ensures x > hi ==> r == hi
  {
    if x < lo then lo else if x > hi then hi else x
  }

  /** Kotlin's `x.coerceIn(lo, hi)` on Float values. */
  function CoerceInReal(x: real, lo: real, hi: real): (r: real)
    requires lo <= hi
    ensures lo <= r <= hi
    ensures lo <= x <= hi ==> r == x
    ensures x < lo ==> r == lo
    ensures x > hi ==> r == hi
  {
    if x < lo then lo else if x > hi then hi else x
  }

  /**
   * Kotlin's Int `/`, which truncates toward zero (Dafny's `/` is Euclidean):
   * the quotient's magnitude is the number of whole |b| in |a|, and its sign
   * is negative exactly when the operands' signs differ.
   */
  function TruncDiv(a: int, b: int): (q: int)
    requires b != 0
    ensures Abs(q) * Abs(b) <= Abs(a) < (Abs(q) + 1) * Abs(b)
    ensures q == 0 || ((q < 0) <==> ((a < 0) != (b < 0)))
    ensures a >= 0 && b > 0 ==> q == a / b
  {
    var n, d := Abs(a), Abs(b);
    var m: int := n / d;
    QuotientMagnitude(n, d, m);
    if (a < 0) == (b < 0) then m else -m
  }

  /** A quotient of |a| by |b| counts the whole |b| contained in |a|. */
  lemma QuotientMagnitude(n: nat, d: nat, m: nat)
    requires d > 0 && m == n / d
    ensures m * d <= n < (m + 1) * d
  {
    EuclidBounds(n, d);
  }

  /** The floor quotient of naturals leaves a remainder below the divisor. */
  lemma EuclidBounds(n: nat, d: nat)
    requires d > 0
    ensures (n / d) * d <= n < (n / d + 1) * d
    ensures n - (n / d) * d == n % d
  {
    var m := n / d;
    assert n == m * d + n % d;
    assert (m + 1) * d == m * d + d;
  }

  /**
   * Kotlin's Int `%`: the remainder of TruncDiv. It is smaller than the
   * divisor in magnitude and, unless zero, has the sign of `a`.
   */
  function TruncRem(a: int, b: int): (r: int)
    requires b != 0
    ensures Abs(r) < Abs(b)
    ensures r == 0 || ((r < 0) <==> (a < 0))
    ensures a >= 0 && b > 0 ==> r == a % b
  {
    TruncRemBounds(a, b);
    a - TruncDiv(a, b) * b
  }

  /** a - TruncDiv(a, b) * b is the remainder of |a| by |b|, with the sign of `a`. */
  lemma TruncRemBounds(a: int, b: int)
    requires b != 0
    ensures a >= 0 ==> a - TruncDiv(a, b) * b == Abs(a) % Abs(b)
    ensures a < 0 ==> a - TruncDiv(a, b) * b == -(Abs(a) % Abs(b))
  {
    var n: int, d: int := Abs(a), Abs(b);
    EuclidBounds(n, d);
    var m := n / d;
    var q := TruncDiv(a, b);
    var md := m * d;
    if b > 0 {
      assert b == d;
      if a >= 0 { assert q == m; assert q * b == md; }
      else { assert q == -m; assert q * b == -md; }
    } else {
      assert b == -d;
      if a >= 0 { assert q == -m; assert q * b == (-m) * (-d) == md; }
      else { assert q == m; assert q * b == m * (-d) == -md; }
    }
  }

  /**
   * Kotlin's `Float.toInt()` on a finite value: truncation toward zero. The
   * saturation at the Int range and NaN are not part of this model.
   */
  function FloatToInt(x: real): (r: int)
    ensures 0.0 <= x ==> 0 <= r && r as real <= x < r as real + 1.0
    ensures x < 0.0 ==> r <= 0 && r as real - 1.0 < x <= r as real
  {
    if x >= 0.0 then x.Floor else -((-x).Floor)
  }
}
