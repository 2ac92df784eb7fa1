/** src/enclave/scoring/allocation.py: the geometric decay and the schedule it spans. */
module Decay {
  import opened Numbers
  import opened Sums

  const LOW: real := 0.000000000001
  const HIGH: real := 1.0 - 0.000000000001
  const STEPS: nat := 400

  /** 1 + x + ... + x^(n-1). */
  function GeoSum(x: real, n: nat): real {
    if n == 0 then 0.0 else GeoSum(x, n - 1) + Pow(x, n - 1)
  }

  lemma {:induction false} PowBetween(x: real, n: nat)
    requires 0.0 < x < 1.0
    ensures 0.0 < Pow(x, n) <= 1.0
    ensures n > 0 ==> Pow(x, n) < 1.0
  {
    if n > 0 {
      PowBetween(x, n - 1);
    }
  }

  /** The first slot of a schedule over `paidRanks` ranks with the given ratio. */
  function TopOf(ratio: real, paidRanks: nat): real
    requires 0.0 < ratio < 1.0 && paidRanks >= 1
  {
    if Abs(ratio - 1.0) < 0.000000000000000000000000000001 then
      1.0 / paidRanks as real
    else
      PowBetween(ratio, paidRanks);
      (1.0 - ratio) / (1.0 - Pow(ratio, paidRanks))
  }

  /** The bisection interval after `steps` further halvings. */
  function Bisect(n: nat, share: real, low: real, high: real, steps: nat): (real, real)
    requires n >= 1 && 0.0 < low < high < 1.0
    decreases steps
  {
    if steps == 0 then (low, high) else
      var mid := (low + high) / 2.0;
      if TopOf(mid, n) > share then Bisect(n, share, mid, high, steps - 1)
      else Bisect(n, share, low, mid, steps - 1)
  }

  function SolvedDecay(n: nat, share: real, steps: nat): real
    requires n >= 1
  {
    if n == 1 then 1.0 else
      var (low, high) := Bisect(n, share, LOW, HIGH, steps);
      (low + high) / 2.0
  }

  method SolveDecay(paidRanks: nat, topShare: real) returns (decay: real)
    requires paidRanks >= 1
    ensures decay == SolvedDecay(paidRanks, topShare, STEPS)
  {
    if paidRanks == 1 {
      return 1.0;
    }
    var low, high := LOW, HIGH;
    for i := 0 to STEPS
      invariant 0.0 < low < high < 1.0
      invariant Bisect(paidRanks, topShare, low, high, STEPS - i)
             == Bisect(paidRanks, topShare, LOW, HIGH, STEPS)
    {
      var mid := (low + high) / 2.0;
      if TopOf(mid, paidRanks) > topShare {
        low := mid;
      } else {
        high := mid;
      }
    }
    decay := (low + high) / 2.0;
  }

  function GeometricSchedule(length: int, decay: real): (r: seq<real>)
    requires decay > 0.0
    ensures |r| == if length <= 0 then 0 else length
  {
    if length <= 0 then [] else
      var raw := seq(length, i requires 0 <= i < length => Pow(decay, i));
      RawTotal(decay, length);
      seq(length, i requires 0 <= i < length => raw[i] / Sum(raw))
  }

  // ----- The schedule -----

  lemma {:induction false} RawTotal(decay: real, n: nat)
    requires decay > 0.0
    ensures Sum(seq(n, i requires 0 <= i < n => Pow(decay, i))) == GeoSum(decay, n)
    ensures n > 0 ==> GeoSum(decay, n) >= 1.0
  {
    if n > 0 {
      RawTotal(decay, n - 1);
      var raw := seq(n, i requires 0 <= i < n => Pow(decay, i));
      assert raw[..n - 1] == seq(n - 1, i requires 0 <= i < n - 1 => Pow(decay, i));
      PowPositive(decay, n - 1);
    }
  }

  lemma {:induction false} PowPositive(x: real, n: nat)
    requires x > 0.0
    ensures Pow(x, n) > 0.0
  {
    if n > 0 {
      PowPositive(x, n - 1);
    }
  }

  lemma {:induction false} SumScaled(s: seq<real>, t: seq<real>, c: real)
    requires c != 0.0 && |s| == |t| && forall i :: 0 <= i < |s| ==> t[i] == s[i] / c
    ensures Sum(t) == Sum(s) / c
  {
    if s != [] {
      SumScaled(s[..|s| - 1], t[..|t| - 1], c);
    }
  }

  /** A non-empty schedule is a probability vector whose first slot is 1 / (1 + d + ... ). */
  lemma ScheduleTotal(length: nat, decay: real)
    requires length > 0 && decay > 0.0
    ensures Sum(GeometricSchedule(length, decay)) == 1.0
    ensures GeoSum(decay, length) >= 1.0
    ensures GeometricSchedule(length, decay)[0] == 1.0 / GeoSum(decay, length)
    ensures forall i :: 0 <= i < length ==> GeometricSchedule(length, decay)[i] > 0.0
  {
    RawTotal(decay, length);
    var raw := seq(length, i requires 0 <= i < length => Pow(decay, i));
    var total := GeoSum(decay, length);
    var schedule := GeometricSchedule(length, decay);
    SumScaled(raw, schedule, total);
    forall i | 0 <= i < length ensures schedule[i] > 0.0 {
      PowPositive(decay, i);
      DivideLt(0.0, Pow(decay, i), total);
    }
  }

  lemma {:induction false} PowFalls(decay: real, i: nat, j: nat)
    requires 0.0 < decay < 1.0 && i < j
    ensures Pow(decay, j) < Pow(decay, i)
  {
    PowPositive(decay, j - 1);
    ScaleLt(Pow(decay, j - 1), decay, 1.0);
    if i < j - 1 {
      PowFalls(decay, i, j - 1);
    }
  }

  lemma ScheduleDecreasing(length: nat, decay: real, i: nat, j: nat)
    requires 0.0 < decay < 1.0 && i < j < length
    ensures GeometricSchedule(length, decay)[j] < GeometricSchedule(length, decay)[i]
  {
    RawTotal(decay, length);
    PowFalls(decay, i, j);
    DivideLt(Pow(decay, j), Pow(decay, i), GeoSum(decay, length));
  }

  // ----- Accuracy of the bisection -----

  lemma {:induction false} GeometricSum(x: real, n: nat)
    ensures (1.0 - x) * GeoSum(x, n) == 1.0 - Pow(x, n)
  {
    if n > 0 {
      GeometricSum(x, n - 1);
    }
  }

  lemma TopOfIsReciprocal(x: real, n: nat)
    requires LOW <= x <= HIGH && n >= 1
    ensures GeoSum(x, n) >= 1.0 && TopOf(x, n) == 1.0 / GeoSum(x, n)
  {
    GeometricSum(x, n);
    PowBetween(x, n);
    RawTotal(x, n);
    var s, p, q := GeoSum(x, n), 1.0 - x, 1.0 - Pow(x, n);
    assert TopOf(x, n) == p / q;
    assert p * s == q;
    QuotientIs(p, q, s);
  }

  lemma QuotientIs(p: real, q: real, s: real)
    requires q > 0.0 && s > 0.0 && p * s == q
    ensures p / q == 1.0 / s
  {
    assert p == q / s;
    assert p / q == (q / s) / q;
  }

  /** One more factor: `p` and `q` are the next powers after `a` and `b`. */
  lemma RangeStep(p: real, q: real, a: real, b: real, x: real, y: real)
    requires 0.0 <= x <= y <= 1.0 && 0.0 <= a <= b <= 1.0 && p == a * x && q == b * y
    ensures 0.0 <= p <= q <= 1.0
  {
    ProductNonneg(a, x);
    Shrinks(b, y);
    assert a * x <= b * y by { ScaleLe(a, x, y); ScaleLe(y, a, b); }
  }

  lemma GapStep(p: real, q: real, a: real, b: real, x: real, y: real)
    requires 0.0 <= x <= y <= 1.0 && 0.0 <= a <= b <= 1.0 && p == a * x && q == b * y
    ensures q - p <= (b - a) + (y - x)
  {
    calc {
      b * y - a * x;
      (b - a) * y + a * (y - x);
      <= { ScaleLe(y - x, a, 1.0); }
      (b - a) * y + (y - x);
      <= { ScaleLe(b - a, y, 1.0); }
      (b - a) + (y - x);
    }
  }

  lemma StrictStep(a: real, b: real, x: real, y: real)
    requires 0.0 <= x < y && 0.0 <= a <= b && 0.0 < b
    ensures a * x < b * y
  {
    ScaleLt(b, x, y);
    ScaleLe(x, a, b);
    assert x * a == a * x && x * b == b * x;
  }

  lemma {:induction false} PowRange(x: real, y: real, k: nat)
    requires 0.0 <= x <= y <= 1.0
    ensures 0.0 <= Pow(x, k) <= Pow(y, k) <= 1.0
  {
    if k > 0 {
      PowRange(x, y, k - 1);
      RangeStep(Pow(x, k), Pow(y, k), Pow(x, k - 1), Pow(y, k - 1), x, y);
    }
  }

  lemma {:induction false} PowGap(x: real, y: real, k: nat)
    requires 0.0 <= x <= y <= 1.0
    ensures Pow(y, k) - Pow(x, k) <= Times(k, y - x)
  {
    if k > 0 {
      PowGap(x, y, k - 1);
      PowRange(x, y, k - 1);
      GapStep(Pow(x, k), Pow(y, k), Pow(x, k - 1), Pow(y, k - 1), x, y);
    }
  }

  /** `gap` added up 0 + 1 + ... + (n-1) times. */
  function Reach(n: nat, gap: real): real {
    if n == 0 then 0.0 else Reach(n - 1, gap) + Times(n - 1, gap)
  }

  lemma {:induction false} ReachIs(n: nat, gap: real)
    ensures 2.0 * Reach(n, gap) == (n * (n - 1)) as real * gap
  {
    if n > 0 {
      ReachIs(n - 1, gap);
      TimesIs(n - 1, gap);
      assert n * (n - 1) == (n - 1) * (n - 2) + 2 * (n - 1);
      Spread(gap, ((n - 1) * (n - 2)) as real, (2 * (n - 1)) as real);
    }
  }

  lemma ReachBound(n: nat, gap: real)
    ensures Reach(n, gap) == (n * (n - 1)) as real / 2.0 * gap
  {
    ReachIs(n, gap);
  }

  lemma {:induction false} ReachMonotone(n: nat, g: real, h: real)
    requires 0.0 <= g <= h
    ensures 0.0 <= Reach(n, g) <= Reach(n, h)
  {
    if n > 0 {
      ReachMonotone(n - 1, g, h);
      TimesMonotone(n - 1, g, h);
    }
  }

  /** The geometric sum is strictly increasing, and Lipschitz with constant n(n-1)/2. */
  lemma {:induction false} GeoSumGap(x: real, y: real, n: nat)
    requires 0.0 <= x < y <= 1.0 && n >= 1
    ensures 1.0 <= GeoSum(x, n) <= GeoSum(y, n)
    ensures n >= 2 ==> GeoSum(x, n) < GeoSum(y, n)
    ensures GeoSum(y, n) - GeoSum(x, n) <= Reach(n, y - x)
  {
    if n > 1 {
      GeoSumGap(x, y, n - 1);
      PowRange(x, y, n - 1);
      PowGap(x, y, n - 1);
      PowMeets(x, y, n - 1);
    } else {
      assert GeoSum(x, 0) == GeoSum(y, 0) == 0.0;
    }
  }

  lemma PowMeets(x: real, y: real, k: nat)
    requires 0.0 <= x < y <= 1.0 && k > 0
    ensures Pow(x, k) < Pow(y, k)
  {
    PowRange(x, y, k - 1);
    PowPositive(y, k - 1);
    StrictStep(Pow(x, k - 1), Pow(y, k - 1), x, y);
  }

  /** Share of the first of `n` ranks when the ratio is `x`; defined on the closed unit interval. */
  function FirstShare(x: real, n: nat): (r: real)
    requires 0.0 <= x <= 1.0 && n >= 1
  {
    GeoSumAtLeastOne(x, n);
    1.0 / GeoSum(x, n)
  }

  lemma GeoSumAtLeastOne(x: real, n: nat)
    requires 0.0 <= x <= 1.0 && n >= 1
    ensures GeoSum(x, n) >= 1.0
  {
    if x < 1.0 {
      GeoSumGap(x, 1.0, n);
    } else {
      GeoSumGap(0.0, 1.0, n);
    }
  }

  lemma FirstShareGap(x: real, y: real, n: nat)
    requires 0.0 <= x < y <= 1.0 && n >= 1
    ensures 0.0 <= FirstShare(x, n) - FirstShare(y, n) <= Reach(n, y - x)
    ensures n >= 2 ==> FirstShare(y, n) < FirstShare(x, n)
  {
    GeoSumGap(x, y, n);
    var a, b := GeoSum(x, n), GeoSum(y, n);
    ReciprocalGap(a, b);
  }

  lemma ReciprocalGap(a: real, b: real)
    requires 1.0 <= a <= b
    ensures 0.0 <= 1.0 / a - 1.0 / b <= b - a
    ensures a < b ==> 1.0 / b < 1.0 / a
  {
    var u, v, gap := 1.0 / a, 1.0 / b, b - a;
    assert u * a == 1.0 && v * b == 1.0;
    assert 0.0 < u <= 1.0 && 0.0 < v <= 1.0;
    var w := u * v;
    assert w * b == u by { assert w * b == u * (v * b); }
    assert w * a == v by { assert w * a == v * (u * a); }
    assert u - v == w * gap;
    assert 0.0 < w <= 1.0 by { ScaleLe(u, v, 1.0); ScaleLt(u, 0.0, v); }
    ScaleLe(gap, w, 1.0);
    ScaleLe(gap, 0.0, w);
    if a < b {
      ScaleLt(gap, 0.0, w);
    }
  }

  lemma {:induction false} FirstShareEnds(n: nat)
    requires n >= 1
    ensures FirstShare(0.0, n) == 1.0 && FirstShare(1.0, n) == 1.0 / n as real
  {
    EndSums(n);
  }

  lemma {:induction false} EndSums(n: nat)
    requires n >= 1
    ensures GeoSum(0.0, n) == 1.0 && GeoSum(1.0, n) == n as real
    ensures Pow(1.0, n) == 1.0 && Pow(0.0, n) == 0.0
  {
    if n > 1 {
      EndSums(n - 1);
    }
  }

  /** What every halving keeps: the interval shrinks by half and moved ends are on their own side. */
  lemma {:induction false} BisectKeeps(n: nat, share: real, low: real, high: real, steps: nat)
    requires n >= 1 && LOW <= low < high <= HIGH
    ensures var (l, h) := Bisect(n, share, low, high, steps);
      && low <= l < h <= high
      && h - l == Halved(high - low, steps)
      && (l == low || TopOf(l, n) > share)
      && (h == high || TopOf(h, n) <= share)
    decreases steps
  {
    if steps > 0 {
      var mid := (low + high) / 2.0;
      if TopOf(mid, n) > share {
        BisectKeeps(n, share, mid, high, steps - 1);
      } else {
        BisectKeeps(n, share, low, mid, steps - 1);
      }
    }
  }

  lemma {:induction false} HalvedHalf(w: real, k: nat)
    ensures Halved(w / 2.0, k) == Halved(w, k) / 2.0
    decreases k
  {
    if k > 0 {
      HalvedHalf(w / 2.0, k - 1);
    }
  }

  /** The last interval around the solved decay, with the shares that its ends would give. */
  lemma LastInterval(n: nat, share: real, steps: nat) returns (l: real, d: real, h: real)
    requires n >= 2
    ensures LOW <= l < d < h <= HIGH && d == SolvedDecay(n, share, steps)
    ensures d - l < TwoToMinus(steps + 1) && h - d < TwoToMinus(steps + 1)
    ensures (l == LOW || FirstShare(l, n) > share) && (h == HIGH || FirstShare(h, n) <= share)
    ensures GeometricSchedule(n, d)[0] == FirstShare(d, n)
  {
    BisectKeeps(n, share, LOW, HIGH, steps);
    HalvedLt((HIGH - LOW) / 2.0, 1.0 / 2.0, steps);
    HalvedHalf(HIGH - LOW, steps);
    var interval := Bisect(n, share, LOW, HIGH, steps);
    l, h := interval.0, interval.1;
    d := (l + h) / 2.0;
    TopOfIsReciprocal(l, n);
    TopOfIsReciprocal(h, n);
    ScheduleTotal(n, d);
  }

  lemma DecayInside(n: nat, share: real, steps: nat)
    requires n >= 2
    ensures LOW < SolvedDecay(n, share, steps) < HIGH
  {
    var l, d, h := LastInterval(n, share, steps);
  }

  /** Two ratios on either side of a target both stay close to it. */
  lemma Squeeze(n: nat, share: real, lo: real, d: real, hi: real, reach: real)
    requires n >= 1 && 0.0 <= lo < d < hi <= 1.0
    requires FirstShare(hi, n) <= share <= FirstShare(lo, n)
    requires d - lo <= reach && hi - d <= reach
    ensures Abs(FirstShare(d, n) - share) <= Reach(n, reach)
  {
    assert FirstShare(lo, n) - FirstShare(d, n) <= Reach(n, reach) by {
      FirstShareGap(lo, d, n);
      ReachMonotone(n, d - lo, reach);
    }
    assert FirstShare(d, n) - FirstShare(hi, n) <= Reach(n, reach) by {
      FirstShareGap(d, hi, n);
      ReachMonotone(n, hi - d, reach);
    }
  }

  /** The target lies between the shares that the two ends of the start interval give. */
  ghost predicate Bracketed(n: nat, share: real)
    requires n >= 1
  {
    TopOf(HIGH, n) <= share < TopOf(LOW, n)
  }

  /** A target inside the start interval: the solved decay is next to the target's only root. */
  lemma DecayNearRoot(n: nat, share: real, steps: nat, root: real)
    requires n >= 2 && LOW <= root <= HIGH && TopOf(root, n) == share
    ensures Abs(SolvedDecay(n, share, steps) - root) < TwoToMinus(steps + 1)
    ensures forall x :: LOW <= x <= HIGH && TopOf(x, n) == share ==> x == root
  {
    var l, d, h := LastInterval(n, share, steps);
    TopOfIsReciprocal(root, n);
    if root < l { FirstShareGap(root, l, n); }
    if h < root { FirstShareGap(h, root, n); }
    forall x | LOW <= x <= HIGH && TopOf(x, n) == share ensures x == root {
      TopOfIsReciprocal(x, n);
      if x < root { FirstShareGap(x, root, n); }
      if root < x { FirstShareGap(root, x, n); }
    }
  }

  /** A target inside the start interval: the top slot of the full schedule meets it. */
  lemma DecayAccuracy(n: nat, share: real, steps: nat)
    requires n >= 2 && Bracketed(n, share)
    ensures var d := SolvedDecay(n, share, steps);
      && LOW < d < HIGH
      && Abs(GeometricSchedule(n, d)[0] - share) <= (n * (n - 1)) as real / 2.0 * TwoToMinus(steps + 1)
  {
    var l, d, h := LastInterval(n, share, steps);
    TopOfIsReciprocal(LOW, n);
    TopOfIsReciprocal(HIGH, n);
    Squeeze(n, share, l, d, h, TwoToMinus(steps + 1));
    ReachBound(n, TwoToMinus(steps + 1));
  }

  /** Every parameter set the constructor admits: a clipped end costs at most 1e-12 of slope. */
  lemma DecayAccuracyAnyTarget(n: nat, share: real, steps: nat)
    requires n >= 2 && 1.0 / n as real < share <= 1.0
    ensures var d := SolvedDecay(n, share, steps);
      && LOW < d < HIGH
      && Abs(GeometricSchedule(n, d)[0] - share) <= (n * (n - 1)) as real / 2.0 * (LOW + TwoToMinus(steps + 1))
  {
    var l, d, h := LastInterval(n, share, steps);
    FirstShareEnds(n);
    var lo := if FirstShare(l, n) > share then l else 0.0;
    var hi := if FirstShare(h, n) <= share then h else 1.0;
    Squeeze(n, share, lo, d, hi, LOW + TwoToMinus(steps + 1));
    ReachBound(n, LOW + TwoToMinus(steps + 1));
  }
}
