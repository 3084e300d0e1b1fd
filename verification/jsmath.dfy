/**
 * The handful of JavaScript `Math` operations the editor's numeric code uses,
 * written out over Dafny's unbounded `int` and `real`, plus the optional value
 * (`T | undefined`) that the source threads through its state.
 */
module JsMath {

  datatype Option<T> = None | Some(value: T)

  /** `Math.max` on two reals. */
  function Max(a: real, b: real): (r: real)
    ensures a <= r && b <= r
    ensures r == a || r == b
  {
    if a >= b then a else b
  }

  /** `Math.min` on two reals. */
  function Min(a: real, b: real): (r: real)
    ensures r <= a && r <= b
    ensures r == a || r == b
  {
    if a <= b then a else b
  }

  /** `Math.max` on two integers. */
  function MaxInt(a: int, b: int): (r: int)
    ensures a <= r && b <= r
    ensures r == a || r == b
  {
    if a >= b then a else b
  }

  /** `Math.min` on two integers. */
  function MinInt(a: int, b: int): (r: int)
    ensures r <= a && r <= b
    ensures r == a || r == b
  {
    if a <= b then a else b
  }

  /** `Math.floor`: the greatest integer not above `x`. */
  function Floor(x: real): (r: int)
    ensures r as real <= x < r as real + 1.0
  {
    x.Floor
  }

  /** `Math.ceil`: the least integer not below `x`. */
  function Ceil(x: real): (r: int)
    ensures r as real - 1.0 < x <= r as real
  {
    -((-x).Floor)
  }

  /** `Math.round`: halves go towards +infinity, so it is floor(x + 1/2). */
  function Round(x: real): (r: int)
    ensures r as real - 0.5 <= x < r as real + 0.5
  {
    (x + 0.5).Floor
  }

  /** An integer `n` with `n - 1 < x <= n` is the ceiling of `x`. */
  lemma CeilUnique(x: real, n: int)
    requires n as real - 1.0 < x <= n as real
    ensures Ceil(x) == n
  {
  }

  /** An integer `n` with `n - 1/2 <= x < n + 1/2` is what `Round` gives. */
  lemma RoundUnique(x: real, n: int)
    requires n as real - 0.5 <= x < n as real + 0.5
    ensures Round(x) == n
  {
  }

  /** Rounding an integer gives the integer back. */
  lemma RoundOfInt(n: int)
    ensures Round(n as real) == n
  {
    RoundUnique(n as real, n);
  }

  /** Rounding is monotone. */
  lemma RoundMonotone(x: real, y: real)
    requires x <= y
    ensures Round(x) <= Round(y)
  {
  }

  /** Dividing by a positive number keeps the order. */
  lemma DivMonotone(a: real, b: real, d: real)
    requires a <= b && 0.0 < d
    ensures a / d <= b / d
  {
    assert b / d - a / d == (b - a) / d;
  }

  /** Multiplying by a non-negative number keeps the order. */
  lemma MulMonotone(a: real, b: real, k: real)
    requires a <= b && 0.0 <= k
    ensures a * k <= b * k
  {
    assert b * k - a * k == (b - a) * k;
  }

  /** `Math.ceil(m / 2)` on a whole number is `(m + 1) / 2` in integer division. */
  lemma CeilHalf(m: nat)
    ensures Ceil(m as real / 2.0) == (m + 1) / 2
  {
    var h := (m + 1) / 2;
    if m % 2 == 0 {
      assert m == 2 * h;
      assert m as real / 2.0 == h as real;
    } else {
      assert m == 2 * h - 1;
      assert m as real / 2.0 == h as real - 0.5;
    }
    CeilUnique(m as real / 2.0, h);
  }

  /** A part of a positive whole smaller than the whole is a share in [0, 1). */
  lemma ShareBelowOne(x: real, d: real)
    requires 0.0 <= x < d
    ensures 0.0 <= x / d < 1.0
  {
    DivMonotone(x, d, d);
    DivMonotone(0.0, x, d);
  }

  /** Scaling two shares of the same whole by a non-negative factor keeps their order. */
  lemma ScaledShareMonotone(x1: real, x2: real, d: real, k: real)
    requires x1 <= x2 && 0.0 < d && 0.0 <= k
    ensures (x1 / d) * k <= (x2 / d) * k
  {
    DivMonotone(x1, x2, d);
    MulMonotone(x1 / d, x2 / d, k);
  }

  /** Taking a share of `a`, scaling it by `b`, and undoing both gets `x` back. */
  lemma CancelScale(x: real, a: real, b: real)
    requires a != 0.0 && b != 0.0
    ensures ((x / a) * b) / b * a == x
  {
  }

  /** Taking a share of `a` and scaling it back by `a` gets `x` back. */
  lemma CancelShare(x: real, a: real)
    requires a != 0.0
    ensures (x / a) * a == x
  {
  }

  /** Scaling `x` by `a` and dividing by `a` gets `x` back. */
  lemma CancelFactor(x: real, a: real)
    requires a != 0.0
    ensures (x * a) / a == x
  {
  }
}
