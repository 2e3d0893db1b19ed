/**
 * The few pieces of JavaScript number semantics the game rules depend on,
 * stated over Dafny's unbounded integers and exact reals.
 */
module JsMath {

  /** `Math.abs` */
  function Abs(x: real): (r: real)
    ensures r >= 0.0
    ensures r == x || r == -x
  {
    if x < 0.0 then -x else x
  }

  /** `Math.max` on two integers */
  function Max(a: int, b: int): (r: int)
    ensures r >= a && r >= b
    ensures r == a || r == b
  {
    if a < b then b else a
  }

  /**
   * JavaScript's `a % n`: the remainder of division truncated toward zero, so
   * it carries the sign of the dividend (Dafny's own `%` is Euclidean). The
   * source never divides by zero where this is used; JavaScript would give NaN.
   */
  function Rem(a: int, n: int): (r: int)
    requires n != 0
    ensures a >= 0 ==> 0 <= r < n || 0 <= r < -n
    ensures a < 0 ==> (0 >= r > -n || 0 >= r > n)
    ensures a >= 0 ==> r == a % n
  {
    if a >= 0 then a % n else -((-a) % n)
  }

  /** JavaScript's `Math.trunc(a / n)`: the quotient rounded toward zero, which `%` pairs with. */
  function Quot(a: int, n: int): (q: int)
    requires n != 0
  {
    if a >= 0 then a / n else -((-a) / n)
  }

  /**
   * `%` and truncated division pair up as JavaScript defines them,
   * a == n * trunc(a / n) + a % n; with the sign and size of the remainder
   * this pins `%` down for every dividend, negative ones included.
   */
  lemma RemPairsWithQuot(a: int, n: int)
    requires n != 0
    ensures a == n * Quot(a, n) + Rem(a, n)
    ensures a < 0 ==> Rem(a, n) == -Rem(-a, n)
  {
  }

  /** `Math.floor(Math.random() * n)` for a draw `r` of `Math.random()`: an index into n choices. */
  function RandomIndex(r: real, n: nat): (k: nat)
    requires 0.0 <= r < 1.0
    requires n > 0
    ensures k < n
  {
    ScaledDrawBelow(r, n as real);
    assert 0.0 <= r * n as real < n as real;
    (r * n as real).Floor
  }

  /** A draw in [0, 1) scaled by a positive m lands in [0, m). */
  lemma ScaledDrawBelow(r: real, m: real)
    requires 0.0 <= r < 1.0
    ensures m > 0.0 ==> 0.0 <= r * m < m
  {
    if m > 0.0 {
      assert r * m <= r * m + (1.0 - r) * m;
    }
  }
}
