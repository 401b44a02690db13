/** Integer division facts shared by the money modules. Every lemma is one small
    nonlinear step, so that the proofs that use them stay linear. */
module Arithmetic {

  function Abs(a: int): nat { if a < 0 then -a else a }

  /** Division that rounds toward zero, as BigInt's own `/` does. Dafny's `/` is Euclidean,
      so the sign is handled apart from the magnitudes. */
  function TruncDiv(a: int, b: int): int
    requires b != 0
  {
    var q := Abs(a) / Abs(b);
    if (a < 0) != (b < 0) then -q else q
  }

  lemma DivBounds(a: int, b: int)
    requires b > 0
    ensures (a / b) * b <= a < (a / b) * b + b
  {
  }

  lemma DivAtLeast(a: int, b: int, q: int)
    requires b > 0 && q * b <= a
    ensures q <= a / b
  {
    if a / b < q {
      MulMonotone(a / b + 1, q, b);
      DivBounds(a, b);
    }
  }

  lemma DivAtMost(a: int, b: int, q: int)
    requires b > 0 && a < (q + 1) * b
    ensures a / b <= q
  {
    if q < a / b {
      MulMonotone(q + 1, a / b, b);
      DivBounds(a, b);
    }
  }

  lemma DivMonotone(a: int, a': int, b: int)
    requires b > 0 && a <= a'
    ensures a / b <= a' / b
  {
    DivBounds(a, b);
    DivAtLeast(a', b, a / b);
  }

  lemma MulMonotone(a: int, b: int, c: int)
    requires a <= b && c >= 0
    ensures a * c <= b * c
  {
  }

  /** Cancelling a positive factor. */
  lemma MulCancel(a: int, b: int, c: int)
    requires c > 0 && a * c <= b * c
    ensures a <= b
  {
  }

  lemma Distribute(a: int, b: int, c: int)
    ensures (a + b) * c == a * c + b * c
    ensures (a - b) * c == a * c - b * c
  {
  }

  /** A quotient rounded toward zero is less than one unit from the exact one, on the side of zero. */
  lemma TruncDivBounds(a: int, b: int)
    requires b > 0
    ensures 0 <= a ==> 0 <= TruncDiv(a, b) && TruncDiv(a, b) * b <= a < TruncDiv(a, b) * b + b
    ensures a <= 0 ==> TruncDiv(a, b) <= 0 && TruncDiv(a, b) * b - b < a <= TruncDiv(a, b) * b
  {
    var q := Abs(a) / b;
    DivBounds(Abs(a), b);
    assert (-q) * b == -(q * b);
  }

  lemma TruncDivOfNat(a: int, b: int)
    requires a >= 0 && b > 0
    ensures TruncDiv(a, b) == a / b
  {
  }

  lemma Negated(a: int, b: int)
    ensures a * -b == -(a * b)
  {
  }

  lemma TruncDivIsOdd(a: int, b: int)
    requires b > 0
    ensures TruncDiv(-a, b) == -TruncDiv(a, b)
  {
    assert Abs(-a) == Abs(a) && Abs(b) == b;
    if a == 0 {
      assert Abs(a) / b == 0;
    }
  }

  lemma Regroup(a: int, b: int, c: int)
    ensures a * b * c == a * (b * c)
  {
  }

  lemma MulStrict(a: int, b: int, k: int)
    requires k > 0
    ensures a < b <==> a * k < b * k
  {
    Distribute(b, a, k);
    if a < b {
      MulMonotone(1, b - a, k);
    } else {
      MulMonotone(b, a, k);
    }
  }

  /** Never further from zero than the exact quotient, and less than one unit nearer to it. */
  lemma TruncDivScaled(a: int, b: int, k: int)
    requires b > 0 && k > 0
    ensures var q := TruncDiv(a, b);
            && (a >= 0 ==> q * (b * k) <= a * k < (q + 1) * (b * k))
            && (a <= 0 ==> (q - 1) * (b * k) < a * k <= q * (b * k))
  {
    var q := TruncDiv(a, b);
    TruncDivBounds(a, b);
    Distribute(q, 1, b);
    Regroup(q, b, k);
    if a >= 0 {
      Regroup(q + 1, b, k);
      MulMonotone(q * b, a, k);
      MulStrict(a, (q + 1) * b, k);
    } else {
      Regroup(q - 1, b, k);
      MulMonotone(a, q * b, k);
      MulStrict((q - 1) * b, a, k);
    }
  }

  lemma QuotientsOrdered(q: int, r: int, unit: int, x: int, y: int)
    requires unit > 0 && x <= y
    requires (q * unit <= x && y < (r + 1) * unit) || ((q - 1) * unit < x && y <= r * unit)
    ensures q <= r
  {
    MulStrict(q, r + 1, unit);
    MulStrict(q - 1, r, unit);
  }

  lemma QuotientsApart(q: int, r: int, unit: int, x: int, y: int)
    requires unit > 0 && y - x >= 2 * unit && (q - 1) * unit < x && y < (r + 1) * unit
    ensures q < r
  {
    Distribute(q, 1, unit);
    Distribute(r, 1, unit);
    MulStrict(q, r, unit);
  }

  /** The numerator `a` of a quotient by `b`, scaled to the denominator `unit`. */
  predicate Scaled(a: int, b: int, x: int, unit: int)
    requires b > 0
  {
    var q := TruncDiv(a, b);
    && (a >= 0 ==> 0 <= q && 0 <= x && q * unit <= x < (q + 1) * unit)
    && (a <= 0 ==> q <= 0 && x <= 0 && (q - 1) * unit < x <= q * unit)
  }

  lemma ScaledUp(a: int, b: int, k: int, x: int, unit: int)
    requires b > 0 && k > 0 && x == a * k && unit == b * k
    ensures unit > 0 && Scaled(a, b, x, unit)
  {
    TruncDivBounds(a, b);
    TruncDivScaled(a, b, k);
    MulMonotone(1, b, k);
    MulStrict(a, 0, k);
    MulStrict(0, a, k);
  }

  lemma ScaledInOrder(a: int, b: int, x: int, c: int, d: int, y: int, unit: int)
    requires b > 0 && d > 0 && unit > 0 && Scaled(a, b, x, unit) && Scaled(c, d, y, unit) && x <= y
    requires (a < 0 ==> x < 0) && (c < 0 ==> y < 0)
    ensures TruncDiv(a, b) <= TruncDiv(c, d)
    ensures y - x >= 2 * unit ==> TruncDiv(a, b) < TruncDiv(c, d)
  {
    var q, r := TruncDiv(a, b), TruncDiv(c, d);
    Distribute(q, 1, unit);
    Distribute(r, 1, unit);
    if (a >= 0) == (c >= 0) {
      QuotientsOrdered(q, r, unit, x, y);
    }
    if y - x >= 2 * unit {
      QuotientsApart(q, r, unit, x, y);
    }
  }

  /** Rounding toward zero keeps the order of two quotients, and keeps apart what is two units apart. */
  lemma TruncDivKeepsOrder(a: int, b: int, c: int, d: int)
    requires b > 0 && d > 0 && a * d <= c * b
    ensures TruncDiv(a, b) <= TruncDiv(c, d)
    ensures c * b - a * d >= 2 * (b * d) ==> TruncDiv(a, b) < TruncDiv(c, d)
  {
    ScaledUp(a, b, d, a * d, b * d);
    ScaledUp(c, d, b, c * b, b * d);
    MulStrict(a, 0, d);
    MulStrict(c, 0, b);
    ScaledInOrder(a, b, a * d, c, d, c * b, b * d);
  }

  /** From a / g <= b / h and b / h <= c / i to a / g <= c / i, multiplied out. */
  lemma RatioTransitive(a: int, g: int, b: int, h: int, c: int, i: int)
    requires h > 0 && g >= 0 && i >= 0
    requires a * h <= b * g && b * i <= c * h
    ensures a * i <= c * g
  {
    MulMonotone(a * h, b * g, i);
    MulMonotone(b * i, c * h, g);
    Rearrange(a, h, i);
    Rearrange(b, g, i);
    Rearrange(c, h, g);
    MulCancel(a * i, c * g, h);
  }

  lemma Rearrange(a: int, b: int, c: int)
    ensures a * b * c == a * c * b
  {
  }

  lemma RatioTransitiveStrict(c: int, i: int, b: int, h: int, a: int, g: int)
    requires h > 0 && g > 0 && i >= 0
    requires c * h < b * i && b * g <= a * h
    ensures c * g < a * i
  {
    MulMonotone(c * h + 1, b * i, g);
    Distribute(c * h, 1, g);
    MulMonotone(b * g, a * h, i);
    Rearrange(c, h, g);
    Rearrange(b, i, g);
    Rearrange(a, h, i);
    if a * i <= c * g {
      MulMonotone(a * i, c * g, h);
    }
  }
}
