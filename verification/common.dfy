/** Shared vocabulary: Python's None, Python's int() on floats, round(), and
    a witness predicate standing for math.dist (a square root). */
module Common {

  datatype Option<+T> = None | Some(value: T)

  /** Python `int(x)` on a float: truncation toward zero (not Floor). */
  function Trunc(x: real): (r: int)
    ensures TowardZero(x, r)
  {
    if x >= 0.0 then x.Floor else -((-x).Floor)
  }

  /** `n` is `x` with its fractional part dropped, on the side of zero. */
  predicate TowardZero(x: real, n: int)
  {
    && (0.0 <= x ==> n as real <= x < n as real + 1.0)
    && (x < 0.0 ==> n as real - 1.0 < x <= n as real)
  }

  /** int() leaves whole numbers unchanged, negative ones included. */
  lemma TruncWhole(n: int)
    ensures Trunc(n as real) == n
  {
    if n < 0 { assert -(n as real) == (-n) as real; }
  }

  /** Python `round(x, 2)`, rounding halves upward. */
  function Round2(x: real): (r: real)
    ensures x - 0.005 < r <= x + 0.005
  {
    ((x * 100.0 + 0.5).Floor as real) / 100.0
  }

  /** Python `round(x, 1)`, rounding halves upward. */
  function Round1(x: real): (r: real)
    ensures x - 0.05 < r <= x + 0.05
  {
    ((x * 10.0 + 0.5).Floor as real) / 10.0
  }

  /** A value that is already a whole number of hundredths is left alone. */
  lemma Round2Fixed(k: int)
    ensures Round2(k as real / 100.0) == k as real / 100.0
  {
    var x := k as real / 100.0;
    assert x * 100.0 == k as real;
    assert (x * 100.0 + 0.5).Floor == k;
  }

  /** round() never reverses the order of two values. */
  lemma Round2Monotone(x: real, y: real)
    requires x <= y
    ensures Round2(x) <= Round2(y)
  {
    assert (x * 100.0 + 0.5).Floor <= (y * 100.0 + 0.5).Floor;
  }

  /** `d` is the Euclidean length of the vector (dx, dy), i.e. what
      `math.dist` returns for two points that far apart. */
  predicate IsDist(d: real, dx: real, dy: real)
  {
    d >= 0.0 && d * d == dx * dx + dy * dy
  }

  /** The last `n` elements of `s` (all of them when there are fewer). */
  function LastN<T>(s: seq<T>, n: nat): (r: seq<T>)
    ensures |r| == if |s| <= n then |s| else n
    ensures forall i :: 0 <= i < |r| ==> r[i] == s[|s| - |r| + i]
  {
    if |s| <= n then s else s[|s| - n..]
  }

  /** Appending to a window of the last `n` elements and trimming again is
      the window of the whole longer history: a bounded deque forgets only
      what falls out of the window. */
  lemma LastNStep<T>(h: seq<T>, x: T, n: nat)
    requires n > 0
    ensures LastN(LastN(h, n) + [x], n) == LastN(h + [x], n)
  {
    if |h| < n {
      assert LastN(h, n) == h;
    } else {
      var w := h[|h| - n..];
      assert LastN(h, n) == w && |w| == n;
      assert LastN(w + [x], n) == (w + [x])[1..];
      assert LastN(h + [x], n) == (h + [x])[|h| + 1 - n..];
      assert (w + [x])[1..] == (h + [x])[|h| + 1 - n..];
    }
  }

  /** Euclidean division by a positive divisor keeps order. */
  lemma DivMonotone(a: int, b: int, d: int)
    requires a <= b && d > 0
    ensures a / d <= b / d
  {
    var qa, qb := a / d, b / d;
    assert a == d * qa + a % d && b == d * qb + b % d;
    if qa > qb {
      MulStep(d, qb, qa);
      assert false;
    }
  }

  /** Dividing a multiple of `d` by `d` gives the factor back. */
  lemma DivExact(k: int, d: int)
    requires d > 0
    ensures (k * d) / d == k
  {
    var q, r := (k * d) / d, (k * d) % d;
    assert k * d == d * q + r && 0 <= r < d;
    assert d * (k - q) == r;
    if k - q >= 1 {
      MulStep(d, 0, k - q);
      assert false;
    } else if k - q <= -1 {
      MulStep(d, k - q, 0);
      assert false;
    }
  }

  /** One more factor of a positive `d` adds at least `d`. */
  lemma MulStep(d: int, x: int, y: int)
    requires d > 0 && x < y
    ensures d * x + d <= d * y
  {
    var k := y - x - 1;
    assert d * y == d * x + d * k + d;
    assert d * k >= 0;
  }
}
