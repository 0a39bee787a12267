/** Small facts about products and quotients. */
module Arithmetic {

  lemma MulAtLeast(x: nat, b: nat)
    requires x >= 1
    ensures x * b >= b
  {
    if x > 1 {
      MulAtLeast(x - 1, b);
      assert x * b == (x - 1) * b + b;
    }
  }

  lemma MulDifference(x: int, y: int, b: int)
    ensures (x - y) * b == x * b - y * b
  {
  }

  lemma DivMod(a: nat, b: nat)
    requires b > 0
    ensures a == (a / b) * b + a % b && 0 <= a % b < b
  {
  }

  /** Division found from its quotient and remainder. */
  lemma DivIs(a: nat, b: nat, k: nat, r: nat)
    requires b > 0 && a == k * b + r && r < b
    ensures a / b == k
  {
    var d := a / b;
    DivMod(a, b);
    MulDifference(d, k, b);
    MulDifference(k, d, b);
    if d > k {
      MulAtLeast(d - k, b);
    } else if k > d {
      MulAtLeast(k - d, b);
    }
  }

  lemma QuotientStep(x: nat, step: nat)
    requires step > 0 && x >= step
    ensures x / step == 1 + (x - step) / step
  {
    DivMod(x - step, step);
    DivIs(x, step, 1 + (x - step) / step, (x - step) % step);
  }

  lemma SmallQuotient(x: nat, step: nat)
    requires x < step
    ensures x / step == 0
  {
  }

  lemma FloorBounds(x: real)
    ensures x.Floor as real <= x < (x.Floor + 1) as real
  {
  }

  lemma TimesMonotone(a: real, b: real, c: real)
    requires a <= b && c >= 0.0
    ensures a * c <= b * c
  {
  }

  lemma SplitTimes(a: int, k: int, m: int, c: real)
    requires a == m + k
    ensures a as real * c == m as real * c + k as real * c
  {
  }

  lemma Rearrange(a: real, b: real, c: real)
    ensures a * b * c == b * (c * a)
  {
  }

  lemma OneMoreReal(x: real, c: real)
    ensures (x + 1.0) * c == x * c + c
  {
  }

  lemma LessTimes(a: real, b: real, c: real)
    requires a < b && c > 0.0
    ensures a * c < b * c
  {
  }

  lemma OneMoreTimes(k: nat, b: nat)
    ensures (k + 1) * b == k * b + b
  {
  }

  lemma OneMoreTimesInt(k: nat, b: int)
    ensures (k + 1) * b == k * b + b
  {
  }

  lemma FactorAtLeastOne(a: real, b: real)
    requires 0.0 < b <= a * b
    ensures a >= 1.0
  {
    if a < 1.0 {
      LessTimes(a, 1.0, b);
    }
  }
}
