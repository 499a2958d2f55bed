/** Facts about multiplication and truncating division of natural numbers that the
    reward proofs need and that the solver does not find on its own. */
module Arith {

  /** A product of naturals is a natural, and positive when both factors are. */
  lemma MulPos(a: nat, b: nat)
    ensures a * b >= 0 && (a > 0 && b > 0 ==> a * b > 0)
  {
    if a > 0 && b > 0 {
      assert a * b >= 1 * b;
    }
  }

  /** Multiplication is monotone in both arguments. */
  lemma MulLe(a: nat, b: nat, x: nat, y: nat)
    requires a <= x && b <= y
    ensures a * b <= x * y
  {
    assert a * b <= x * b;
    assert x * b <= x * y;
  }

  /** Strict version, used for the uint256 range bounds. */
  lemma MulLt(a: nat, b: nat, x: nat, y: nat)
    requires a < x && b < y
    ensures a * b < x * y
  {
    MulLe(a, b, x - 1, y - 1);
    assert (x - 1) * (y - 1) < x * y;
  }

  lemma Distrib(a: nat, b: nat, c: nat)
    ensures (a + b) * c == a * c + b * c
  {
  }

  lemma Assoc(a: nat, b: nat, c: nat)
    ensures (a * b) * c == a * (b * c)
  {
  }

  lemma SwapLast(a: nat, b: nat, c: nat)
    ensures a * b * c == (a * c) * b
  {
  }

  /** The quotient times the divisor lies within one divisor below the dividend. */
  lemma DivBounds(x: nat, d: nat)
    requires d > 0
    ensures (x / d) * d <= x < (x / d) * d + d
  {
  }

  /** Truncating division is the unique quotient: `q` with `q*d <= x < q*d + d`. */
  lemma DivUnique(x: nat, d: nat, q: nat)
    requires d > 0
    requires q * d <= x < q * d + d
    ensures x / d == q
  {
    var k := x / d;
    DivBounds(x, d);
    if k < q {
      MulLe(k + 1, d, q, d);
      Distrib(k, 1, d);
    } else if q < k {
      MulLe(q + 1, d, k, d);
      Distrib(q, 1, d);
    }
  }

  /** Dividing by `a` and then by `b` is dividing by `a * b`. */
  lemma DivDiv(x: nat, a: nat, b: nat)
    requires a > 0 && b > 0
    ensures x / a / b == x / (a * b)
  {
    MulPos(a, b);
    var q := x / (a * b);
    DivBounds(x, a * b);
    var r: nat := x - q * (a * b);
    var s := r / a;
    DivBounds(r, a);
    SmallQuotient(r, a, b);
    var m := q * b + s;
    assert m * a == q * (a * b) + s * a by {
      Distrib(q * b, s, a);
      Assoc(q, b, a);
    }
    DivUnique(x, a, m);
    DivUnique(m, b, q);
  }

  lemma SmallQuotient(r: nat, a: nat, b: nat)
    requires 0 < a && r < a * b
    ensures r / a < b
  {
    DivBounds(r, a);
    if r / a >= b {
      MulLe(b, a, r / a, a);
    }
  }

  /** Truncating division is monotone in the dividend. */
  lemma DivLe(x: nat, y: nat, d: nat)
    requires d > 0 && x <= y
    ensures x / d <= y / d
  {
    DivBounds(x, d);
    DivBounds(y, d);
    FloorAtLeast(y, d, x / d);
  }

  /** A common positive factor cancels: `(x*c) / (d*c) == x / d`. */
  lemma MulDivCancel(x: nat, c: nat, d: nat)
    requires c > 0 && d > 0
    ensures (x * c) / (d * c) == x / d
  {
    MulPos(d, c);
    var q := x / d;
    DivBounds(x, d);
    MulLe(q * d, c, x, c);
    Assoc(q, d, c);
    MulLe(x + 1, c, q * d + d, c);
    Distrib(x, 1, c);
    Distrib(q * d, d, c);
    DivUnique(x * c, d * c, q);
  }

  /** `(k * d) / d == k`. */
  lemma MulDivExact(k: nat, d: nat)
    requires d > 0
    ensures (k * d) / d == k
  {
    DivUnique(k * d, d, k);
  }

  /** Scaling `x` by `h / w <= 1` before dividing by `t` never raises the quotient. */
  lemma ScaledQuotientAtMost(x: nat, h: nat, w: nat, t: nat)
    requires 0 < t && 0 < w && h <= w
    ensures (x * h) / (w * t) <= x / t
  {
    MulPos(w, t);
    MulLe(x, h, x, w);
    DivLe(x * h, x * w, w * t);
    assert x * w == x * w;
    MulDivCancel(x, w, t);
    assert (x * w) / (t * w) == x / t;
    assert t * w == w * t;
  }

  /** ... and lowers it by at most one when the scaled-away part `e = w - h` is small:
      `(x / t) * e <= w`. */
  lemma ScaledQuotientAtLeast(x: nat, h: nat, e: nat, w: nat, t: nat)
    requires 0 < t && 0 < w && h + e == w
    requires (x / t) * e <= w
    ensures x / t <= (x * h) / (w * t) + 1
  {
    var q := x / t;
    DivBounds(x, t);
    if q > 0 {
      MulPos(w, t);
      ScaledLowerBound(x, h, w, t, q);
    }
  }

  lemma ScaledLowerBound(x: nat, h: nat, w: nat, t: nat, q: nat)
    requires 0 < q && 0 < w * t && h <= w
    requires q * t <= x && q * (w - h) <= w
    ensures q - 1 <= (x * h) / (w * t)
  {
    var k: nat := q - 1;
    MulLe(q * t, h, x, h);
    ShareBound(q, h, w);
    MulLe(k * w, t, q * h, t);
    Rearrange(k, w, t, q, h);
    FloorAtLeast(x * h, w * t, k);
  }

  lemma ShareBound(q: nat, h: nat, w: nat)
    requires 0 < q && h <= w && q * (w - h) <= w
    ensures (q - 1) * w <= q * h
  {
    assert q * (w - h) == q * w - q * h;
    assert (q - 1) * w == q * w - w;
  }

  lemma Rearrange(k: nat, w: nat, t: nat, q: nat, h: nat)
    ensures k * (w * t) == (k * w) * t
    ensures (q * h) * t == (q * t) * h
  {
  }

  lemma FloorAtLeast(n: nat, d: nat, k: nat)
    requires 0 < d && k * d <= n
    ensures k <= n / d
  {
    DivBounds(n, d);
    if n / d < k {
      MulLe(n / d + 1, d, k, d);
      Distrib(n / d, 1, d);
    }
  }
}
