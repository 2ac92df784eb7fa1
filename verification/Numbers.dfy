/** Decimal arithmetic as the source uses it: exact reals, with explicit quantising. */
module Numbers {

  /** `Decimal.quantize` to a whole number of quanta under the default ROUND_HALF_EVEN. */
  function HalfEven(x: real): (n: int)
    ensures x - 0.5 <= n as real <= x + 0.5
  {
    var f := x.Floor;
    var d := x - f as real;
    if d < 0.5 then f
    else if d > 0.5 then f + 1
    else if f % 2 == 0 then f
    else f + 1
  }

  lemma HalfEvenMonotone(x: real, y: real)
    requires x <= y
    ensures HalfEven(x) <= HalfEven(y)
  {
    assert x.Floor <= y.Floor;
    if x.Floor < y.Floor {
      assert HalfEven(x) <= x.Floor + 1;
    }
  }

  lemma HalfEvenWhole(n: int)
    ensures HalfEven(n as real) == n
  {
  }

  /** A value half way between two whole numbers goes to the even one. */
  lemma HalfEvenTie(n: int)
    ensures HalfEven(n as real + 0.5) == if n % 2 == 0 then n else n + 1
  {
    assert (n as real + 0.5).Floor == n;
  }

  /** `int(value)`: truncation toward zero. */
  function Truncate(x: real): (n: int)
    ensures x >= 0.0 ==> n as real <= x < n as real + 1.0 && n >= 0
  {
    if x >= 0.0 then x.Floor else -((-x).Floor)
  }

  /** `to_integral_value(ROUND_CEILING)`. */
  function Ceiling(x: real): (n: int)
    ensures n as real - 1.0 < x <= n as real
  {
    -((-x).Floor)
  }

  function Abs(x: real): real {
    if x < 0.0 then -x else x
  }

  function Pow(x: real, n: nat): real {
    if n == 0 then 1.0 else Pow(x, n - 1) * x
  }

  /** `w` halved `k` times. */
  function Halved(w: real, k: nat): real
    decreases k
  {
    if k == 0 then w else Halved(w / 2.0, k - 1)
  }

  /** 2^-k. */
  function TwoToMinus(k: nat): (r: real)
    ensures r * Pow(2.0, k) == 1.0
  {
    HalvedIs(1.0, k);
    Halved(1.0, k)
  }

  lemma {:induction false} HalvedLt(v: real, w: real, k: nat)
    requires v < w
    ensures Halved(v, k) < Halved(w, k)
    decreases k
  {
    if k > 0 {
      HalvedLt(v / 2.0, w / 2.0, k - 1);
    }
  }

  lemma {:induction false} HalvedIs(w: real, k: nat)
    ensures Halved(w, k) * Pow(2.0, k) == w
    decreases k
  {
    if k > 0 {
      HalvedIs(w / 2.0, k - 1);
      assert Pow(2.0, k) == Pow(2.0, k - 1) * 2.0;
    }
  }

  lemma ScaleLe(c: real, x: real, y: real)
    requires c >= 0.0 && x <= y
    ensures c * x <= c * y
  {
  }

  lemma ScaleLt(c: real, x: real, y: real)
    requires c > 0.0 && x < y
    ensures c * x < c * y
  {
  }

  lemma Shrinks(b: real, y: real)
    requires 0.0 <= b && y <= 1.0
    ensures b * y <= b
  {
  }

  lemma ProductNonneg(b: real, y: real)
    requires 0.0 <= y && 0.0 <= b
    ensures 0.0 <= b * y
  {
  }

  lemma Spread(c: real, x: real, y: real)
    ensures c * (x - y) == c * x - c * y
    ensures c * (x + y) == c * x + c * y
  {
  }

  lemma DivideLt(x: real, y: real, c: real)
    requires c > 0.0 && x < y
    ensures x / c < y / c
  {
    ScaleLt(1.0 / c, x, y);
  }

  lemma DivideLe(x: real, y: real, c: real)
    requires c > 0.0 && x <= y
    ensures x / c <= y / c
  {
    ScaleLe(1.0 / c, x, y);
  }

  /** `x` added up `k` times. */
  function Times(k: nat, x: real): real {
    if k == 0 then 0.0 else Times(k - 1, x) + x
  }

  lemma {:induction false} TimesIs(k: nat, x: real)
    ensures Times(k, x) == k as real * x
  {
    if k > 0 {
      TimesIs(k - 1, x);
      Spread(x, (k - 1) as real, 1.0);
    }
  }

  lemma TimesQuotient(k: nat, total: real)
    requires k > 0
    ensures Times(k, total / k as real) == total
  {
    TimesIs(k, total / k as real);
  }

  lemma TimesOver(k: nat, x: real)
    requires k > 0
    ensures Times(k, x) / k as real == x
  {
    TimesIs(k, x);
  }

  lemma {:induction false} TimesMonotone(k: nat, g: real, h: real)
    requires 0.0 <= g <= h
    ensures 0.0 <= Times(k, g) <= Times(k, h)
  {
    if k > 0 {
      TimesMonotone(k - 1, g, h);
    }
  }

  /** `x % m`, by repeated subtraction. */
  function Modulo(x: nat, m: nat): (r: nat)
    requires m > 0
    ensures r < m
  {
    if x < m then x else Modulo(x - m, m)
  }

  lemma {:induction false} ModuloIs(x: nat, m: nat)
    requires m > 0
    ensures Modulo(x, m) == x % m
  {
    if x >= m {
      ModuloIs(x - m, m);
      assert x == m * ((x - m) / m + 1) + (x - m) % m;
      DivisionIsUnique(x, m, (x - m) / m + 1, (x - m) % m);
    }
  }

  lemma DivisionIsUnique(x: nat, m: nat, q: nat, r: nat)
    requires m > 0 && r < m && x == m * q + r
    ensures x % m == r
  {
    var d := x / m - q;
    assert m * d == r - x % m;
    assert d >= 1 ==> m * d >= m;
    assert d <= -1 ==> m * d <= m * -1;
  }
}
