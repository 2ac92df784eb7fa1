/** src/enclave/scoring/yield_score.py: the fold of a round's records into one yield. */
module YieldScore {
  import opened Numbers
  import opened Records
  import opened Sorting
  import opened Sums
  import opened Wrappers

  datatype ScoringParams = ScoringParams(
    spendCap: real, failurePenalty: real, denominatorFloor: real, winsorizeQuantile: Option<real>)

  predicate ValidParams(p: ScoringParams) {
    && p.denominatorFloor > 0.0
    && p.failurePenalty >= 0.0
    && p.spendCap >= p.denominatorFloor
    && (p.winsorizeQuantile.Some? ==> 0.5 < p.winsorizeQuantile.value <= 1.0)
  }

  const DEFAULTS := ScoringParams(2.0, 0.25, 0.005, Some(0.95))

  /** Yield quanta in one: 10^12. */
  const YIELD_SCALE: real := 1_000_000_000_000.0

  function Min(x: real, y: real): real { if x <= y then x else y }
  function Max(x: real, y: real): real { if x >= y then x else y }

  function ChargedCost(r: InstanceRecord, p: ScoringParams): real {
    Max(Min(r.spend, p.spendCap), p.denominatorFloor) + if r.Solved() then 0.0 else p.failurePenalty
  }

  predicate RealLe(x: real, y: real) { x <= y }

  /** ceil(q n), the number of values that are to stay. */
  function Staying(n: nat, quantile: real): int {
    Ceiling(quantile * n as real)
  }

  /** Position in sorted order of the value everything above is lowered to. */
  function CeilingRank(n: nat, quantile: real): (k: nat)
    requires n > 0
    ensures k < n
  {
    var rank := Staying(n, quantile);
    var index := if rank - 1 < 0 then 0 else rank - 1;
    if index < n then index else n - 1
  }

  function CeilingOf(values: seq<real>, quantile: real): real
    requires values != []
  {
    SortBy(values, RealLe)[CeilingRank(|values|, quantile)]
  }

  function Winsorize(values: seq<real>, quantile: real): (r: seq<real>)
    ensures |r| == |values|
    ensures forall i :: 0 <= i < |values| ==> r[i] == Min(values[i], CeilingOf(values, quantile))
  {
    if values == [] then [] else
      var ceiling := CeilingOf(values, quantile);
      seq(|values|, i requires 0 <= i < |values| => Min(values[i], ceiling))
  }

  datatype RoundScore = RoundScore(
    submissionId: string, yieldScore: real, solved: nat, scored: nat, excluded: nat,
    totalCharged: real, verdict: Verdict, voidReason: Option<VoidReason>)

  datatype VoidReason = NoScoreableInstances | AuditFailedOn(instanceId: string)

  function Scoreable(records: seq<InstanceRecord>): (r: seq<InstanceRecord>)
    ensures |r| <= |records|
    ensures forall x :: x in r <==> x in records && x.Scoreable()
  {
    if records == [] then [] else
      var last := records[|records| - 1];
      assert records == records[..|records| - 1] + [last];
      Scoreable(records[..|records| - 1]) + if last.Scoreable() then [last] else []
  }

  predicate IsSolved(r: InstanceRecord) { r.Solved() }

  /** `next((r for r in records if ...), None)`. */
  function FirstFailedAudit(records: seq<InstanceRecord>): (r: Option<InstanceRecord>)
    ensures r.None? <==> forall x :: x in records ==> !x.FailedAudit()
    ensures r.Some? ==> r.value in records && r.value.FailedAudit()
  {
    if records == [] then None
    else if records[0].FailedAudit() then Some(records[0])
    else
      assert records == [records[0]] + records[1..];
      FirstFailedAudit(records[1..])
  }

  function Charges(records: seq<InstanceRecord>, p: ScoringParams): (r: seq<real>)
    ensures |r| == |records|
    ensures forall i :: 0 <= i < |records| ==> r[i] == ChargedCost(records[i], p)
  {
    seq(|records|, i requires 0 <= i < |records| => ChargedCost(records[i], p))
  }

  function Bill(records: seq<InstanceRecord>, p: ScoringParams): (r: seq<real>)
    ensures |r| == |records|
  {
    var charged := Charges(records, p);
    if p.winsorizeQuantile.Some? then Winsorize(charged, p.winsorizeQuantile.value) else charged
  }

  /** `(solved / total).quantize(YIELD_QUANTUM)`. */
  function Yield(solved: nat, total: real): real {
    if total > 0.0 then HalfEven(solved as real / total * YIELD_SCALE) as real / YIELD_SCALE else 0.0
  }

  function ScoreRound(id: string, records: seq<InstanceRecord>, p: ScoringParams): RoundScore {
    var scoreable := Scoreable(records);
    var excluded := |records| - |scoreable|;
    if scoreable == [] then
      RoundScore(id, 0.0, 0, 0, excluded, 0.0, NO_DECISION, Some(NoScoreableInstances))
    else
      var failed := FirstFailedAudit(scoreable);
      if failed.Some? then
        RoundScore(id, 0.0, 0, |scoreable|, excluded, 0.0, FAIL,
                   Some(AuditFailedOn(failed.value.instanceId)))
      else
        var solved := CountBy(scoreable, IsSolved);
        var total := Sum(Bill(scoreable, p));
        RoundScore(id, Yield(solved, total), solved, |scoreable|, excluded, total, PASS, None)
  }

  // ----- Order statistics -----

  lemma RealOrder()
    ensures TotalOrder(RealLe)
  {
  }

  function AtMost(c: real): real -> bool { x => x <= c }

  /** In sorted order, the element at `k` is at most `c` when more than `k` elements are. */
  lemma {:induction false} SortedRank(s: seq<real>, k: nat, c: real)
    requires Sorted(s, RealLe) && k < |s|
    ensures s[k] <= c <==> CountBy(s, AtMost(c)) > k
  {
    var n := |s| - 1;
    if k < n {
      SortedRank(s[..n], k, c);
      if s[n] <= c {
        assert RealLe(s[k], s[n]);
      }
    } else if s[n] <= c {
      AllCounted(s, c);
    }
  }

  lemma {:induction false} AllCounted(s: seq<real>, c: real)
    requires forall i :: 0 <= i < |s| ==> s[i] <= c
    ensures CountBy(s, AtMost(c)) == |s|
  {
    if s != [] {
      AllCounted(s[..|s| - 1], c);
    }
  }

  /** The ceiling is an order statistic: at most `c` when enough values are. */
  lemma CeilingRankIs(values: seq<real>, quantile: real, c: real)
    requires values != []
    ensures CeilingOf(values, quantile) <= c
      <==> CountBy(values, AtMost(c)) > CeilingRank(|values|, quantile)
  {
    var sorted := SortBy(values, RealLe);
    RealOrder();
    SortBySorted(values, RealLe);
    SortedRank(sorted, CeilingRank(|values|, quantile), c);
    CountByPermutation(sorted, values, AtMost(c));
  }

  lemma {:induction false} CountMonotone(s: seq<real>, t: seq<real>, c: real)
    requires |s| == |t| && forall i :: 0 <= i < |s| ==> s[i] <= t[i]
    ensures CountBy(t, AtMost(c)) <= CountBy(s, AtMost(c))
  {
    if s != [] {
      CountMonotone(s[..|s| - 1], t[..|t| - 1], c);
    }
  }

  /** Winsorising is monotone in every value. */
  lemma WinsorizeMonotone(s: seq<real>, t: seq<real>, quantile: real)
    requires |s| == |t| && forall i :: 0 <= i < |s| ==> s[i] <= t[i]
    ensures forall i :: 0 <= i < |s| ==> Winsorize(s, quantile)[i] <= Winsorize(t, quantile)[i]
  {
    if s != [] {
      var c := CeilingOf(t, quantile);
      CeilingRankIs(t, quantile, c);
      CountMonotone(s, t, c);
      CeilingRankIs(s, quantile, c);
    }
  }

  /** Winsorising twice is winsorising once. */
  lemma WinsorizeIdempotent(values: seq<real>, quantile: real)
    ensures Winsorize(Winsorize(values, quantile), quantile) == Winsorize(values, quantile)
  {
    if values != [] {
      var c := CeilingOf(values, quantile);
      var w := Winsorize(values, quantile);
      CeilingRankIs(values, quantile, c);
      AllCounted(w, c);
      CeilingRankIs(w, quantile, c);
      var d := CeilingOf(w, quantile);
      if d < c {
        CeilingRankIs(values, quantile, d);
        CeilingRankIs(w, quantile, d);
        CountBelow(values, w, c, d);
      }
      assert Winsorize(w, quantile) == w;
    }
  }

  lemma {:induction false} CountBelow(s: seq<real>, t: seq<real>, c: real, d: real)
    requires |s| == |t| && d < c && forall i :: 0 <= i < |s| ==> t[i] == Min(s[i], c)
    ensures CountBy(s, AtMost(d)) == CountBy(t, AtMost(d))
  {
    if s != [] {
      CountBelow(s[..|s| - 1], t[..|t| - 1], c, d);
    }
  }

  /** The ceiling depends on the values alone, not on their order. */
  lemma CeilingOrderIndependent(s: seq<real>, t: seq<real>, quantile: real)
    requires s != [] && multiset(s) == multiset(t)
    ensures |t| == |s| && CeilingOf(s, quantile) == CeilingOf(t, quantile)
  {
    assert |multiset(s)| == |s| && |multiset(t)| == |t|;
    RealOrder();
    SortByPermutation(s, t, RealLe);
  }

  lemma ProductWithin(q: real, x: real)
    requires 0.0 < q <= 1.0 && x > 0.0
    ensures 0.0 < q * x <= x
  {
    ScaleLt(x, 0.0, q);
    ScaleLe(x, q, 1.0);
  }

  lemma CeilingWithin(x: real, n: nat)
    requires 0.0 < x <= n as real
    ensures 1 <= Ceiling(x) <= n
  {
  }

  lemma RankExact(n: nat, quantile: real)
    requires n > 0 && 0.5 < quantile <= 1.0
    ensures CeilingRank(n, quantile) == Staying(n, quantile) - 1
  {
    ProductWithin(quantile, n as real);
    CeilingWithin(quantile * n as real, n);
  }

  /** For an admitted quantile at least ceil(q n) values stay, so at most n - ceil(q n) are lowered. */
  lemma WinsorizeFew(values: seq<real>, quantile: real)
    requires values != [] && 0.5 < quantile <= 1.0
    ensures CountBy(values, AtMost(CeilingOf(values, quantile))) >= Staying(|values|, quantile)
  {
    RankExact(|values|, quantile);
    CeilingCovers(values, quantile);
  }

  lemma CeilingCovers(values: seq<real>, quantile: real)
    requires values != []
    ensures CountBy(values, AtMost(CeilingOf(values, quantile))) > CeilingRank(|values|, quantile)
  {
    CeilingRankIs(values, quantile, CeilingOf(values, quantile));
  }

  // ----- Bounds -----

  lemma ChargedCostBounds(r: InstanceRecord, p: ScoringParams)
    requires ValidParams(p)
    ensures p.denominatorFloor <= ChargedCost(r, p) <= p.spendCap + p.failurePenalty
  {
  }

  lemma WinsorizeBounds(values: seq<real>, quantile: real, low: real, high: real)
    requires forall i :: 0 <= i < |values| ==> low <= values[i] <= high
    ensures forall i :: 0 <= i < |values| ==> low <= Winsorize(values, quantile)[i] <= high
  {
    if values != [] {
      var sorted := SortBy(values, RealLe);
      var k := CeilingRank(|values|, quantile);
      assert sorted[k] in multiset(values);
      assert sorted[k] in values;
    }
  }

  lemma ChargesBounds(records: seq<InstanceRecord>, p: ScoringParams)
    requires ValidParams(p)
    ensures forall i :: 0 <= i < |records| ==>
      p.denominatorFloor <= Charges(records, p)[i] <= p.spendCap + p.failurePenalty
  {
    forall i | 0 <= i < |records|
      ensures p.denominatorFloor <= Charges(records, p)[i] <= p.spendCap + p.failurePenalty
    {
      ChargedCostBounds(records[i], p);
    }
  }

  /** The bill of a round lies between n floors and n times cap plus penalty. */
  lemma {:induction false} BillBounds(records: seq<InstanceRecord>, p: ScoringParams)
    requires ValidParams(p)
    ensures Times(|records|, p.denominatorFloor) <= Sum(Bill(records, p))
         <= Times(|records|, p.spendCap + p.failurePenalty)
  {
    BillWithin(records, p, p.denominatorFloor, p.spendCap + p.failurePenalty);
    SumWithin(Bill(records, p), |records|, p.denominatorFloor, p.spendCap + p.failurePenalty);
  }

  ghost predicate Within(bill: seq<real>, low: real, high: real) {
    forall i :: 0 <= i < |bill| ==> low <= bill[i] <= high
  }

  lemma SumWithin(bill: seq<real>, n: nat, low: real, high: real)
    requires |bill| == n && Within(bill, low, high)
    ensures Times(n, low) <= Sum(bill) <= Times(n, high)
  {
    SumBounds(bill, low, high);
  }

  lemma BillWithin(records: seq<InstanceRecord>, p: ScoringParams, low: real, high: real)
    requires ValidParams(p) && low == p.denominatorFloor && high == p.spendCap + p.failurePenalty
    ensures Within(Bill(records, p), low, high)
  {
    ChargesBounds(records, p);
    if p.winsorizeQuantile.Some? {
      WinsorizeBounds(Charges(records, p), p.winsorizeQuantile.value, low, high);
    }
  }

  lemma BillPositive(records: seq<InstanceRecord>, p: ScoringParams)
    requires ValidParams(p) && records != []
    ensures Sum(Bill(records, p)) > 0.0 && Sum(Charges(records, p)) > 0.0
  {
    BillBounds(records, p);
    ChargesBounds(records, p);
    SumBounds(Charges(records, p), p.denominatorFloor, p.spendCap + p.failurePenalty);
    TimesMonotone(|records| - 1, p.denominatorFloor, p.denominatorFloor);
  }

  /** A passing yield never exceeds the solve rate over the floor by more than half a quantum. */
  lemma YieldBound(id: string, records: seq<InstanceRecord>, p: ScoringParams)
    requires ValidParams(p) && ScoreRound(id, records, p).verdict == PASS
    ensures var s := ScoreRound(id, records, p);
      && 0 < s.scored && s.solved <= s.scored
      && 0.0 <= s.yieldScore
        <= s.solved as real / s.scored as real / p.denominatorFloor + 0.5 / YIELD_SCALE
  {
    var scoreable := Scoreable(records);
    BillBounds(scoreable, p);
    YieldBoundOf(CountBy(scoreable, IsSolved), |scoreable|, Sum(Bill(scoreable, p)), p.denominatorFloor);
  }

  lemma YieldBoundOf(solved: nat, n: nat, total: real, floor: real)
    requires n > 0 && floor > 0.0 && Times(n, floor) <= total
    ensures 0.0 <= Yield(solved, total) <= solved as real / n as real / floor + 0.5 / YIELD_SCALE
  {
    TimesIs(n, floor);
    ScaleLt(floor, 0.0, n as real);
    RatioBound(solved as real, total, n as real, floor);
    QuantizedBelow(solved, total, solved as real / n as real / floor);
  }

  lemma RatioBound(solved: real, total: real, n: real, floor: real)
    requires solved >= 0.0 && n > 0.0 && floor > 0.0 && n * floor <= total
    ensures solved / total <= solved / n / floor
  {
    var q := solved / n / floor;
    assert q * (n * floor) == solved by {
      assert q * floor == solved / n;
      assert solved / n * n == solved;
    }
    DivideLe(0.0, solved, n);
    DivideLe(0.0, solved / n, floor);
    ScaleLe(q, n * floor, total);
    DivideLe(solved, q * total, total);
    assert q * total / total == q;
  }

  lemma QuantizedBelow(solved: nat, total: real, bound: real)
    requires total > 0.0 && solved as real / total <= bound
    ensures 0.0 <= Yield(solved, total) <= bound + 0.5 / YIELD_SCALE
  {
    DivideLe(0.0, solved as real, total);
    HalfEvenWhole(0);
    HalfEvenMonotone(0.0, solved as real / total * YIELD_SCALE);
  }

  // ----- Monotonicity of the whole fold -----

  /** `b` is no worse than `a`: untouched, or solved as often, no dearer, and no worse audited. */
  predicate NoWorse(a: InstanceRecord, b: InstanceRecord) {
    || a == b
    || (&& a.Scoreable() && b.Scoreable()
        && (a.Solved() ==> b.Solved())
        && b.spend <= a.spend
        && (b.FailedAudit() ==> a.FailedAudit()))
  }

  ghost predicate Improves(a: seq<InstanceRecord>, b: seq<InstanceRecord>) {
    |a| == |b| && forall i :: 0 <= i < |a| ==> NoWorse(a[i], b[i])
  }

  lemma {:induction false} ScoreableImproves(a: seq<InstanceRecord>, b: seq<InstanceRecord>)
    requires Improves(a, b)
    ensures Improves(Scoreable(a), Scoreable(b))
  {
    if a != [] {
      ScoreableImproves(a[..|a| - 1], b[..|b| - 1]);
    }
  }

  lemma {:induction false} SolvedImproves(a: seq<InstanceRecord>, b: seq<InstanceRecord>)
    requires Improves(a, b)
    ensures CountBy(a, IsSolved) <= CountBy(b, IsSolved)
  {
    if a != [] {
      SolvedImproves(a[..|a| - 1], b[..|b| - 1]);
    }
  }

  lemma BillImproves(a: seq<InstanceRecord>, b: seq<InstanceRecord>, p: ScoringParams)
    requires ValidParams(p) && Improves(a, b)
    ensures Sum(Bill(b, p)) <= Sum(Bill(a, p))
  {
    var ca, cb := Charges(a, p), Charges(b, p);
    assert forall i :: 0 <= i < |a| ==> NoWorse(a[i], b[i]) && cb[i] <= ca[i];
    if p.winsorizeQuantile.Some? {
      WinsorizeMonotone(cb, ca, p.winsorizeQuantile.value);
    }
    SumMonotone(Bill(b, p), Bill(a, p));
  }

  lemma YieldMonotoneIn(solved: nat, total: real, more: nat, less: real)
    requires solved <= more && 0.0 < less <= total
    ensures Yield(solved, total) <= Yield(more, less)
  {
    var x, y := solved as real / total, more as real / less;
    assert x <= y by {
      QuotientLe(solved as real, total, more as real, less);
    }
    HalfEvenMonotone(x * YIELD_SCALE, y * YIELD_SCALE);
  }

  lemma QuotientLe(a: real, t: real, b: real, u: real)
    requires 0.0 <= a <= b && 0.0 < u <= t
    ensures a / t <= b / u
  {
    DivideLe(a, b, u);
    var q := a / u;
    assert q * u == a;
    DivideLe(0.0, a, u);
    ScaleLe(q, u, t);
    DivideLe(a, q * t, t);
    assert q * t / t == q;
  }

  /**
   * The whole fold is monotone: replacing any records by ones solved at least as often, with no
   * more spend and no worse audit result, never lowers the yield.
   */
  lemma YieldMonotone(id: string, a: seq<InstanceRecord>, b: seq<InstanceRecord>, p: ScoringParams)
    requires ValidParams(p) && Improves(a, b)
    ensures ScoreRound(id, a, p).yieldScore <= ScoreRound(id, b, p).yieldScore
    ensures ScoreRound(id, a, p).verdict == PASS ==> ScoreRound(id, b, p).verdict == PASS
  {
    var sa, sb := Scoreable(a), Scoreable(b);
    ScoreableImproves(a, b);
    if sa != [] {
      BillPositive(sb, p);
      if FirstFailedAudit(sa).None? {
        forall x | x in sb ensures !x.FailedAudit() {
          var i :| 0 <= i < |sb| && sb[i] == x;
          assert NoWorse(sa[i], sb[i]) && sa[i] in sa;
        }
        SolvedImproves(sa, sb);
        BillImproves(sa, sb, p);
        YieldMonotoneIn(CountBy(sa, IsSolved), Sum(Bill(sa, p)), CountBy(sb, IsSolved), Sum(Bill(sb, p)));
      } else {
        QuantizedBelow(CountBy(sb, IsSolved), Sum(Bill(sb, p)),
                       CountBy(sb, IsSolved) as real / Sum(Bill(sb, p)));
      }
    }
  }

  // ----- Order independence -----

  lemma {:induction false} ScoreableAppend(s: seq<InstanceRecord>, t: seq<InstanceRecord>)
    ensures Scoreable(s + t) == Scoreable(s) + Scoreable(t)
  {
    if t == [] {
      assert s + t == s;
    } else {
      assert (s + t)[..|s + t| - 1] == s + t[..|t| - 1];
      ScoreableAppend(s, t[..|t| - 1]);
    }
  }

  lemma {:induction false} ScoreablePermuted(a: seq<InstanceRecord>, b: seq<InstanceRecord>)
    requires multiset(a) == multiset(b)
    ensures multiset(Scoreable(a)) == multiset(Scoreable(b))
    decreases |a|
  {
    if a == [] {
      assert |multiset(b)| == 0;
    } else {
      var i := SplitAt(a, b);
      ScoreablePermuted(a[..|a| - 1], b[..i] + b[i + 1..]);
      ScoreableAppend(b[..i], b[i + 1..]);
      ScoreableAppend(b[..i] + [b[i]], b[i + 1..]);
      ScoreableAppend(b[..i], [b[i]]);
      assert [b[i]][..0] == [];
    }
  }

  lemma {:induction false} ChargesPermuted(a: seq<InstanceRecord>, b: seq<InstanceRecord>, p: ScoringParams)
    requires multiset(a) == multiset(b)
    ensures multiset(Charges(a, p)) == multiset(Charges(b, p))
    decreases |a|
  {
    if a == [] {
      assert |multiset(b)| == 0;
    } else {
      var n := |a| - 1;
      var i := SplitAt(a, b);
      var rest := b[..i] + b[i + 1..];
      ChargesPermuted(a[..n], rest, p);
      var ca, cb := Charges(a, p), Charges(b, p);
      assert ca == Charges(a[..n], p) + [ca[n]];
      assert Charges(rest, p) == cb[..i] + cb[i + 1..];
      RemoveAt(cb, i);
    }
  }

  function MinWith(c: real): real -> real { x => Min(x, c) }

  function Same(): real -> real { x => x }

  lemma {:induction false} SumIs(s: seq<real>, t: seq<real>, f: real -> real)
    requires |s| == |t| && forall i :: 0 <= i < |s| ==> t[i] == f(s[i])
    ensures Sum(t) == SumBy(s, f)
  {
    if s != [] {
      SumIs(s[..|s| - 1], t[..|t| - 1], f);
    }
  }

  lemma BillPermuted(a: seq<InstanceRecord>, b: seq<InstanceRecord>, p: ScoringParams)
    requires multiset(a) == multiset(b)
    ensures Sum(Bill(a, p)) == Sum(Bill(b, p))
  {
    var ca, cb := Charges(a, p), Charges(b, p);
    ChargesPermuted(a, b, p);
    assert |multiset(ca)| == |multiset(cb)|;
    if ca == [] {
    } else if p.winsorizeQuantile.Some? {
      var q := p.winsorizeQuantile.value;
      CeilingOrderIndependent(ca, cb, q);
      var f := MinWith(CeilingOf(ca, q));
      SumIs(ca, Winsorize(ca, q), f);
      SumIs(cb, Winsorize(cb, q), f);
      SumByPermutation(ca, cb, f);
    } else {
      SumIs(ca, ca, Same());
      SumIs(cb, cb, Same());
      SumByPermutation(ca, cb, Same());
    }
  }

  /** Only the void reason may depend on the order of the records. */
  lemma ScoreOrderIndependent(id: string, a: seq<InstanceRecord>, b: seq<InstanceRecord>, p: ScoringParams)
    requires multiset(a) == multiset(b)
    ensures ScoreRound(id, a, p).(voidReason := None) == ScoreRound(id, b, p).(voidReason := None)
  {
    var sa, sb := Scoreable(a), Scoreable(b);
    ScoreablePermuted(a, b);
    assert |multiset(a)| == |multiset(b)| && |multiset(sa)| == |multiset(sb)|;
    AuditPermuted(sa, sb);
    CountByPermutation(sa, sb, IsSolved);
    BillPermuted(sa, sb, p);
  }

  lemma AuditPermuted(a: seq<InstanceRecord>, b: seq<InstanceRecord>)
    requires multiset(a) == multiset(b)
    ensures FirstFailedAudit(a).None? <==> FirstFailedAudit(b).None?
  {
    assert forall x :: x in a <==> x in multiset(a);
    assert forall x :: x in b <==> x in multiset(b);
  }

  /** The void reason does depend on it: of two failed audits it names the first. */
  lemma VoidReasonFollowsOrder(id: string, x: InstanceRecord, y: InstanceRecord, p: ScoringParams)
    requires x.FailedAudit() && y.FailedAudit() && x.Scoreable() && y.Scoreable()
    ensures multiset([x, y]) == multiset([y, x])
    ensures ScoreRound(id, [x, y], p).voidReason == Some(AuditFailedOn(x.instanceId))
    ensures ScoreRound(id, [y, x], p).voidReason == Some(AuditFailedOn(y.instanceId))
  {
    PairScoreable(x, y);
    PairScoreable(y, x);
  }

  lemma PairScoreable(x: InstanceRecord, y: InstanceRecord)
    requires x.Scoreable() && y.Scoreable()
    ensures Scoreable([x, y]) == [x, y]
  {
    assert [x, y][..1] == [x] && [x][..0] == [];
    assert Scoreable([x]) == [x];
  }

  // ----- When losing a solve pays -----

  /** The unquantised yield. */
  function Ratio(solved: nat, total: real): real
    requires total > 0.0
  {
    solved as real / total
  }

  /** What the charges of a round are lowered to, when anything lowers them. */
  function CeilingIn(charges: seq<real>, p: ScoringParams): Option<real> {
    if p.winsorizeQuantile.Some? && charges != [] then Some(CeilingOf(charges, p.winsorizeQuantile.value)) else None
  }

  function Lowered(x: real, ceiling: Option<real>): real {
    if ceiling.Some? then Min(x, ceiling.value) else x
  }

  function LoweredTo(ceiling: Option<real>): real -> real { x => Lowered(x, ceiling) }

  /** What a charge costs less when the ceiling moves. */
  function Relief(before: Option<real>, after: Option<real>): real -> real {
    x => Lowered(x, before) - Lowered(x, after)
  }

  /**
   * What the bill saves when the charge at `i` becomes `charge`: the difference of the two, each
   * under the ceiling of its own round, and for every other charge what the moved ceiling takes off.
   */
  function Saved(charges: seq<real>, i: nat, charge: real, p: ScoringParams): real
    requires i < |charges|
  {
    var before, after := CeilingIn(charges, p), CeilingIn(charges[i := charge], p);
    Lowered(charges[i], before) - Lowered(charge, after)
      + SumBy(charges[..i] + charges[i + 1..], Relief(before, after))
  }

  lemma BillIsLowered(records: seq<InstanceRecord>, p: ScoringParams)
    ensures Sum(Bill(records, p)) == SumBy(Charges(records, p), LoweredTo(CeilingIn(Charges(records, p), p)))
  {
    var charges := Charges(records, p);
    SumIs(charges, Bill(records, p), LoweredTo(CeilingIn(charges, p)));
  }

  lemma {:induction false} ReliefTotal(s: seq<real>, before: Option<real>, after: Option<real>)
    ensures SumBy(s, LoweredTo(before)) - SumBy(s, LoweredTo(after)) == SumBy(s, Relief(before, after))
  {
    if s != [] {
      ReliefTotal(s[..|s| - 1], before, after);
    }
  }

  lemma {:induction false} SumByOneOut(a: seq<real>, x: real, b: seq<real>, f: real -> real)
    ensures SumBy(a + [x] + b, f) == f(x) + SumBy(a + b, f)
  {
    SumByAppend(a + [x], b, f);
    SumByAppend(a, [x], f);
    SumByAppend(a, b, f);
    assert [x][..0] == [];
  }

  /** A sum with the term at `i` taken out. */
  lemma {:induction false} SumByAround(s: seq<real>, i: nat, f: real -> real)
    requires i < |s|
    ensures SumBy(s, f) == f(s[i]) + SumBy(s[..i] + s[i + 1..], f)
  {
    assert s == s[..i] + [s[i]] + s[i + 1..];
    SumByOneOut(s[..i], s[i], s[i + 1..], f);
  }

  /** `Saved` is what comes off the bill. */
  lemma {:induction false} SavedIs(records: seq<InstanceRecord>, i: nat, lost: InstanceRecord, p: ScoringParams)
    requires i < |records|
    ensures Saved(Charges(records, p), i, ChargedCost(lost, p), p)
         == Sum(Bill(records, p)) - Sum(Bill(records[i := lost], p))
  {
    var charges, charge := Charges(records, p), ChargedCost(lost, p);
    var swapped := charges[i := charge];
    assert Charges(records[i := lost], p) == swapped;
    BillIsLowered(records, p);
    BillIsLowered(records[i := lost], p);
    var before, after := CeilingIn(charges, p), CeilingIn(swapped, p);
    SumByAround(charges, i, LoweredTo(before));
    SumByAround(swapped, i, LoweredTo(after));
    assert swapped[..i] + swapped[i + 1..] == charges[..i] + charges[i + 1..];
    ReliefTotal(charges[..i] + charges[i + 1..], before, after);
  }

  /** `lost` replaces the solve at `i`: one solve fewer. */
  lemma {:induction false} SwapSolved(records: seq<InstanceRecord>, i: nat, lost: InstanceRecord)
    requires i < |records| && records[i].Solved() && !lost.Solved()
    ensures CountBy(records, IsSolved) > 0
    ensures CountBy(records[i := lost], IsSolved) == CountBy(records, IsSolved) - 1
  {
    var n := |records| - 1;
    if i < n {
      SwapSolved(records[..n], i, lost);
      assert records[i := lost][..n] == records[..n][i := lost];
    } else {
      assert records[i := lost][..n] == records[..n];
    }
  }

  /**
   * README.md line 128 says that no exchange rate makes degradation pay. Exactly: replacing a solve
   * by a failure lowers solved / total when, and only when, what the bill saves is below
   * total / solved.
   */
  lemma LosingASolve(records: seq<InstanceRecord>, i: nat, lost: InstanceRecord, p: ScoringParams)
    requires ValidParams(p) && i < |records| && records[i].Solved() && !lost.Solved()
    ensures var solved, total := CountBy(records, IsSolved), Sum(Bill(records, p));
      var solved', total' := CountBy(records[i := lost], IsSolved), Sum(Bill(records[i := lost], p));
      && solved > 0 && total > 0.0 && total' > 0.0
      && (Ratio(solved', total') < Ratio(solved, total) <==>
          Saved(Charges(records, p), i, ChargedCost(lost, p), p) < total / solved as real)
  {
    BillPositive(records, p);
    BillPositive(records[i := lost], p);
    SwapSolved(records, i, lost);
    SavedIs(records, i, lost, p);
    LosingRatio(CountBy(records, IsSolved), Sum(Bill(records, p)), Sum(Bill(records[i := lost], p)));
  }

  lemma LosingRatio(solved: nat, total: real, after: real)
    requires solved >= 1 && total > 0.0 && after > 0.0
    ensures Ratio(solved - 1, after) < Ratio(solved, total) <==> total - after < total / solved as real
  {
    var s := solved as real;
    CrossMultiply(s - 1.0, after, s, total);
    var mean, saved := total / s, total - after;
    assert s * mean == total;
    assert (s - 1.0) * total == s * total - total;
    Spread(s, total, after);
    if saved < mean {
      ScaleLt(s, saved, mean);
    } else {
      ScaleLe(s, mean, saved);
    }
  }

  lemma CrossMultiply(a: real, t: real, b: real, u: real)
    requires t > 0.0 && u > 0.0
    ensures a / t < b / u <==> a * u < b * t
  {
    var x, y := a / t, b / u;
    assert a == x * t && b == y * u;
    assert a * u == (t * u) * x && b * t == (t * u) * y;
    assert t * u > 0.0;
    if x < y {
      ScaleLt(t * u, x, y);
    } else {
      ScaleLe(t * u, y, x);
    }
  }

  lemma ScoreableOneMore(records: seq<InstanceRecord>, last: InstanceRecord)
    requires last.Scoreable()
    ensures Scoreable(records + [last]) == Scoreable(records) + [last]
  {
    assert (records + [last])[..|records|] == records;
  }

  lemma {:induction false} ScoreableAround(a: seq<InstanceRecord>, x: InstanceRecord, b: seq<InstanceRecord>)
    requires x.Scoreable()
    ensures Scoreable(a + [x] + b) == Scoreable(a) + [x] + Scoreable(b)
  {
    ScoreableAppend(a + [x], b);
    ScoreableOneMore(a, x);
  }

  lemma SwapInside(a: seq<InstanceRecord>, x: InstanceRecord, b: seq<InstanceRecord>, y: InstanceRecord)
    ensures (a + [x] + b)[|a|] == x && (a + [x] + b)[|a| := y] == a + [y] + b
  {
  }

  /** The scoreable records around a swap. */
  lemma ScoreableSwap(records: seq<InstanceRecord>, i: nat, lost: InstanceRecord) returns (j: nat)
    requires i < |records| && records[i].Scoreable() && lost.Scoreable()
    ensures j < |Scoreable(records)| && Scoreable(records)[j] == records[i]
    ensures Scoreable(records[i := lost]) == Scoreable(records)[j := lost]
  {
    var a, b := records[..i], records[i + 1..];
    assert records == a + [records[i]] + b;
    SwapInside(a, records[i], b, lost);
    ScoreableAround(a, records[i], b);
    ScoreableAround(a, lost, b);
    SwapInside(Scoreable(a), records[i], Scoreable(b), lost);
    j := |Scoreable(a)|;
  }

  lemma {:induction false} SwapAudit(kept: seq<InstanceRecord>, j: nat, lost: InstanceRecord)
    requires j < |kept| && FirstFailedAudit(kept).None? && !lost.FailedAudit()
    ensures FirstFailedAudit(kept[j := lost]).None?
  {
    forall x | x in kept[j := lost] ensures !x.FailedAudit() {
      var k :| 0 <= k < |kept| && kept[j := lost][k] == x;
      assert kept[k] in kept;
    }
  }

  lemma PassingScore(id: string, records: seq<InstanceRecord>, p: ScoringParams)
    requires Scoreable(records) != [] && FirstFailedAudit(Scoreable(records)).None?
    ensures var score, kept := ScoreRound(id, records, p), Scoreable(records);
      && score.verdict == PASS && score.solved == CountBy(kept, IsSolved)
      && score.totalCharged == Sum(Bill(kept, p)) && score.yieldScore == Yield(score.solved, score.totalCharged)
  {
  }

  /**
   * The yield of a whole round when the solve at `i` is lost: it cannot rise while the bill saves
   * less than total / solved, cannot fall once it saves that much, and does fall or rise when the
   * unquantised yields are more than a quantum apart.
   */
  lemma LosingASolveScores(id: string, records: seq<InstanceRecord>, i: nat, lost: InstanceRecord, p: ScoringParams)
      returns (j: nat)
    requires ValidParams(p) && i < |records| && records[i].Solved()
    requires lost.Scoreable() && !lost.Solved() && !lost.FailedAudit()
    requires ScoreRound(id, records, p).verdict == PASS
    ensures j < |Scoreable(records)| && Scoreable(records)[j] == records[i]
    ensures var before, after := ScoreRound(id, records, p), ScoreRound(id, records[i := lost], p);
      var saved := Saved(Charges(Scoreable(records), p), j, ChargedCost(lost, p), p);
      && after.verdict == PASS && before.solved > 0 && after.solved == before.solved - 1
      && after.totalCharged == before.totalCharged - saved
      && (saved < before.totalCharged / before.solved as real ==> after.yieldScore <= before.yieldScore)
      && (saved >= before.totalCharged / before.solved as real ==> after.yieldScore >= before.yieldScore)
      && before.totalCharged > 0.0 && after.totalCharged > 0.0
      && (Ratio(after.solved, after.totalCharged) + 1.0 / YIELD_SCALE < Ratio(before.solved, before.totalCharged) ==>
            after.yieldScore < before.yieldScore)
      && (Ratio(after.solved, after.totalCharged) > Ratio(before.solved, before.totalCharged) + 1.0 / YIELD_SCALE ==>
            after.yieldScore > before.yieldScore)
  {
    j := ScoreableSwap(records, i, lost);
    var kept := Scoreable(records);
    var swapped := kept[j := lost];
    assert kept != [] && FirstFailedAudit(kept).None?;
    SwapAudit(kept, j, lost);
    PassingScore(id, records, p);
    PassingScore(id, records[i := lost], p);
    LosingASolve(kept, j, lost, p);
    SwapSolved(kept, j, lost);
    SavedIs(kept, j, lost, p);
    RatiosRound(CountBy(kept, IsSolved), Sum(Bill(kept, p)), CountBy(swapped, IsSolved), Sum(Bill(swapped, p)));
  }

  /** Quantising keeps the order of two ratios, strictly when they are more than a quantum apart. */
  lemma RatiosRound(solved: nat, total: real, solved': nat, total': real)
    requires total > 0.0 && total' > 0.0
    ensures Ratio(solved', total') <= Ratio(solved, total) ==> Yield(solved', total') <= Yield(solved, total)
    ensures Ratio(solved', total') >= Ratio(solved, total) ==> Yield(solved', total') >= Yield(solved, total)
    ensures Ratio(solved', total') + 1.0 / YIELD_SCALE < Ratio(solved, total) ==>
      Yield(solved', total') < Yield(solved, total)
    ensures Ratio(solved', total') > Ratio(solved, total) + 1.0 / YIELD_SCALE ==>
      Yield(solved', total') > Yield(solved, total)
  {
    YieldNear(solved, total);
    YieldNear(solved', total');
    var x, y := Ratio(solved, total) * YIELD_SCALE, Ratio(solved', total') * YIELD_SCALE;
    if x <= y { HalfEvenMonotone(x, y); }
    if y <= x { HalfEvenMonotone(y, x); }
  }

  lemma {:induction false} AllAtMost(s: seq<real>, c: real, i: nat)
    requires CountBy(s, AtMost(c)) == |s| && i < |s|
    ensures s[i] <= c
  {
    if i < |s| - 1 {
      AllAtMost(s[..|s| - 1], c, i);
    }
  }

  /** When all are to stay, winsorising lowers nothing. */
  lemma NothingLowered(charges: seq<real>, quantile: real)
    requires Staying(|charges|, quantile) == |charges|
    ensures Winsorize(charges, quantile) == charges
  {
    if charges != [] {
      CeilingCovers(charges, quantile);
      forall i | 0 <= i < |charges| ensures charges[i] <= CeilingOf(charges, quantile) {
        AllAtMost(charges, CeilingOf(charges, quantile), i);
      }
    }
  }

  /** At the default quantile, that is below twenty records. */
  lemma AllStayBelowTwenty(n: nat)
    ensures Staying(n, DEFAULTS.winsorizeQuantile.value) == n <==> n < 20
  {
  }

  lemma {:induction false} SwapSum(s: seq<real>, i: nat, x: real)
    requires i < |s|
    ensures Sum(s[i := x]) == Sum(s) - s[i] + x
  {
    var n := |s| - 1;
    if i < n {
      SwapSum(s[..n], i, x);
      assert s[i := x][..n] == s[..n][i := x];
    } else {
      assert s[i := x][..n] == s[..n];
    }
  }

  ghost predicate LowersNothing(n: nat, p: ScoringParams) {
    p.winsorizeQuantile.Some? ==> Staying(n, p.winsorizeQuantile.value) == n
  }

  /**
   * Where winsorising lowers nothing the condition is on the one charge: losing the solve lowers the
   * ratio when, and only when, its charge is below that of the failure plus total / solved.
   */
  lemma {:induction false} LosingASolveUnlowered(
      records: seq<InstanceRecord>, i: nat, lost: InstanceRecord, p: ScoringParams)
    requires ValidParams(p) && i < |records| && records[i].Solved() && !lost.Solved()
    requires LowersNothing(|records|, p)
    ensures var solved, total := CountBy(records, IsSolved), Sum(Charges(records, p));
      var solved', total' := CountBy(records[i := lost], IsSolved), Sum(Bill(records[i := lost], p));
      && solved > 0 && total > 0.0 && total' > 0.0 && Bill(records, p) == Charges(records, p)
      && (Ratio(solved', total') < Ratio(solved, total) <==>
          ChargedCost(records[i], p) < ChargedCost(lost, p) + total / solved as real)
  {
    LosingASolve(records, i, lost, p);
    SavedIs(records, i, lost, p);
    var charges := Charges(records, p);
    var swapped := charges[i := ChargedCost(lost, p)];
    assert Charges(records[i := lost], p) == swapped;
    SwapSum(charges, i, ChargedCost(lost, p));
    if p.winsorizeQuantile.Some? {
      NothingLowered(charges, p.winsorizeQuantile.value);
      NothingLowered(swapped, p.winsorizeQuantile.value);
    }
  }

  const NARROW := DEFAULTS.(winsorizeQuantile := Some(0.6))
  const FIRST := InstanceRecord("1", SOLVED, 1.0, false, None)
  const MIDDLE := InstanceRecord("2", SOLVED, 1.5, false, None)
  const LAST := InstanceRecord("3", SOLVED, 1.99, false, None)
  const MIDDLE_LOST := InstanceRecord("2", UNSOLVED, 0.0, false, None)

  /**
   * Where winsorising lowers something the one charge does not decide: here it is below the bound,
   * and dropping the solve raises the yield all the same, because the ceiling comes down with it.
   */
  lemma CeilingMakesItPay()
    ensures ChargedCost(MIDDLE, NARROW)
      < ChargedCost(MIDDLE_LOST, NARROW) + Sum(Charges([FIRST, MIDDLE, LAST], NARROW)) / 3.0
    ensures ScoreRound("s", [FIRST, MIDDLE, LAST], NARROW).yieldScore
      < ScoreRound("s", [FIRST, MIDDLE_LOST, LAST], NARROW).yieldScore
  {
    TripleScore(FIRST, MIDDLE, LAST, 3, 4.0);
    TripleScore(FIRST, MIDDLE_LOST, LAST, 2, 2.255);
    TripleIsWorse(Yield(3, 4.0), Yield(2, 2.255));
  }

  lemma TripleIsWorse(all: real, without: real)
    requires all == Yield(3, 4.0) && without == Yield(2, 2.255)
    ensures all < without
  {
    YieldNear(3, 4.0);
    YieldNear(2, 2.255);
  }

  /** The score of three unaudited scoreable records of which the last is the dearest. */
  lemma TripleScore(x: InstanceRecord, y: InstanceRecord, z: InstanceRecord, solved: nat, total: real)
    requires x.Scoreable() && y.Scoreable() && z.Scoreable() && !x.audited && !y.audited && !z.audited
    requires x.Solved() && z.Solved() && solved == if y.Solved() then 3 else 2
    requires var (cx, cy, cz) := (ChargedCost(x, NARROW), ChargedCost(y, NARROW), ChargedCost(z, NARROW));
      cx < cz && cy < cz && cx != cy && total == Min(cx, cy) + 2.0 * Max(cx, cy)
    ensures Sum(Charges([x, y, z], NARROW)) == ChargedCost(x, NARROW) + ChargedCost(y, NARROW) + ChargedCost(z, NARROW)
    ensures ScoreRound("s", [x, y, z], NARROW).yieldScore == Yield(solved, total)
  {
    TripleScoreable(x, y, z);
    TripleSolved(x, y, z);
    TripleBill(x, y, z);
    TripleUnaudited(x, y, z);
    PassingScore("s", [x, y, z], NARROW);
  }

  lemma TripleUnaudited(x: InstanceRecord, y: InstanceRecord, z: InstanceRecord)
    requires !x.audited && !y.audited && !z.audited
    ensures FirstFailedAudit([x, y, z]).None?
  {
  }

  lemma TripleScoreable(x: InstanceRecord, y: InstanceRecord, z: InstanceRecord)
    requires x.Scoreable() && y.Scoreable() && z.Scoreable()
    ensures Scoreable([x, y, z]) == [x, y, z]
  {
    PairScoreable(x, y);
    ScoreableOneMore([x, y], z);
    assert [x, y] + [z] == [x, y, z];
  }

  lemma TripleSolved(x: InstanceRecord, y: InstanceRecord, z: InstanceRecord)
    requires x.Solved() && z.Solved()
    ensures CountBy([x, y, z], IsSolved) == if y.Solved() then 3 else 2
  {
    PairSolved(x, y);
    assert [x, y, z][..2] == [x, y];
  }

  lemma TripleBill(x: InstanceRecord, y: InstanceRecord, z: InstanceRecord)
    requires var (cx, cy, cz) := (ChargedCost(x, NARROW), ChargedCost(y, NARROW), ChargedCost(z, NARROW));
      cx < cz && cy < cz && cx != cy
    ensures var (cx, cy, cz) := (ChargedCost(x, NARROW), ChargedCost(y, NARROW), ChargedCost(z, NARROW));
      && Sum(Charges([x, y, z], NARROW)) == cx + cy + cz
      && Sum(Bill([x, y, z], NARROW)) == Min(cx, cy) + 2.0 * Max(cx, cy)
  {
    var cx, cy, cz := ChargedCost(x, NARROW), ChargedCost(y, NARROW), ChargedCost(z, NARROW);
    assert Charges([x, y, z], NARROW) == [cx, cy, cz];
    TripleKept(cx, cy, cz, Min(cx, cy));
  }

  /** The winsorised sum of three values of which the least is `low` and the middle one caps all. */
  lemma TripleKept(x: real, y: real, z: real, low: real)
    requires x < z && y < z && x != y && low == Min(x, y)
    ensures Sum([x, y, z]) == x + y + z
    ensures Sum(Winsorize([x, y, z], 0.6)) == low + 2.0 * Max(x, y)
  {
    var c := Max(x, y);
    TripleCeiling(x, y, z, low, c);
    TripleSum(x, y, z);
    TripleSum(Min(x, c), Min(y, c), Min(z, c));
    TripleLowered([x, y, z], 0.6, c);
  }

  lemma {:induction false} TripleLowered(values: seq<real>, quantile: real, c: real)
    requires |values| == 3 && CeilingOf(values, quantile) == c
    ensures Winsorize(values, quantile) == [Min(values[0], c), Min(values[1], c), Min(values[2], c)]
  {
  }

  lemma TripleCeiling(x: real, y: real, z: real, low: real, c: real)
    requires x < z && y < z && x != y && low == Min(x, y) && c == Max(x, y)
    ensures CeilingOf([x, y, z], 0.6) == c
  {
    var s := [x, y, z];
    assert CeilingRank(3, 0.6) == 1 by { assert Staying(3, 0.6) == 2; }
    TripleCount(x, y, z, c);
    CeilingRankIs(s, 0.6, c);
    TripleCount(x, y, z, low);
    CeilingRankIs(s, 0.6, low);
    CeilingIsOne(s, 0.6);
  }

  lemma CeilingIsOne(values: seq<real>, quantile: real)
    requires values != []
    ensures CeilingOf(values, quantile) in values
  {
    assert CeilingOf(values, quantile) in multiset(SortBy(values, RealLe));
  }

  lemma TripleSum(x: real, y: real, z: real)
    ensures Sum([x, y, z]) == x + y + z
  {
    assert [x, y, z][..2] == [x, y] && [x, y][..1] == [x] && [x][..0] == [];
    assert Sum([x]) == x;
    assert Sum([x, y]) == x + y;
  }

  lemma TripleCount(x: real, y: real, z: real, c: real)
    ensures CountBy([x, y, z], AtMost(c))
         == (if x <= c then 1 else 0) + (if y <= c then 1 else 0) + (if z <= c then 1 else 0)
  {
    assert [x, y, z][..2] == [x, y] && [x, y][..1] == [x] && [x][..0] == [];
    assert CountBy([x], AtMost(c)) == if x <= c then 1 else 0;
    assert CountBy([x, y], AtMost(c)) == (if x <= c then 1 else 0) + (if y <= c then 1 else 0);
  }

  const CHEAP := InstanceRecord("1", SOLVED, 0.005, false, None)
  const DEAR := InstanceRecord("2", SOLVED, 1.9, false, None)
  const LOST := InstanceRecord("2", UNSOLVED, 0.0, false, None)

  /** A round under the default parameters in which dropping the dear solve raises the yield. */
  lemma DegradationCanPay()
    ensures ScoreRound("s", [CHEAP, DEAR], DEFAULTS).yieldScore
          < ScoreRound("s", [CHEAP, LOST], DEFAULTS).yieldScore
  {
    PairScore(CHEAP, DEAR, 2, 1.905);
    PairScore(CHEAP, LOST, 1, 0.26);
    DearIsWorse(Yield(2, 1.905), Yield(1, 0.26));
  }

  lemma DearIsWorse(both: real, cheapOnly: real)
    requires both == Yield(2, 1.905) && cheapOnly == Yield(1, 0.26)
    ensures both < cheapOnly
  {
    YieldNear(2, 1.905);
    YieldNear(1, 0.26);
  }

  lemma YieldNear(solved: nat, total: real)
    requires total > 0.0
    ensures Abs(Yield(solved, total) - solved as real / total) <= 0.5 / YIELD_SCALE
  {
  }

  /** The score of two unaudited scoreable records: at that size winsorising lowers nothing. */
  lemma PairScore(x: InstanceRecord, y: InstanceRecord, solved: nat, total: real)
    requires x.Scoreable() && y.Scoreable() && !x.audited && !y.audited
    requires ChargedCost(x, DEFAULTS) <= ChargedCost(y, DEFAULTS)
    requires solved == (if x.Solved() then 1 else 0) + (if y.Solved() then 1 else 0)
    requires total == ChargedCost(x, DEFAULTS) + ChargedCost(y, DEFAULTS)
    ensures ScoreRound("s", [x, y], DEFAULTS).yieldScore == Yield(solved, total)
  {
    PairScoreable(x, y);
    PairSolved(x, y);
    PairBill(x, y);
    NoFailedAudit(x, y);
    PassingScore("s", [x, y], DEFAULTS);
  }

  lemma NoFailedAudit(x: InstanceRecord, y: InstanceRecord)
    requires !x.audited && !y.audited
    ensures FirstFailedAudit([x, y]).None?
  {
  }

  lemma PairSolved(x: InstanceRecord, y: InstanceRecord)
    ensures CountBy([x, y], IsSolved) == (if x.Solved() then 1 else 0) + (if y.Solved() then 1 else 0)
  {
    assert [x, y][..1] == [x] && [x][..0] == [];
    assert CountBy([x], IsSolved) == if x.Solved() then 1 else 0;
  }

  lemma {:induction false} PairBill(x: InstanceRecord, y: InstanceRecord)
    requires ChargedCost(x, DEFAULTS) <= ChargedCost(y, DEFAULTS)
    ensures Sum(Bill([x, y], DEFAULTS)) == ChargedCost(x, DEFAULTS) + ChargedCost(y, DEFAULTS)
  {
    var cx, cy := ChargedCost(x, DEFAULTS), ChargedCost(y, DEFAULTS);
    assert Charges([x, y], DEFAULTS) == [cx, cy];
    PairKept(cx, cy);
    assert [cx, cy][..1] == [cx] && [cx][..0] == [];
    assert Sum([cx]) == cx;
  }

  lemma PairKept(cx: real, cy: real)
    requires cx <= cy
    ensures Winsorize([cx, cy], 0.95) == [cx, cy]
  {
    assert Ceiling(0.95 * 2 as real) == 2;
    assert [cx, cy][1..] == [cy] && [cy][1..] == [];
    assert SortBy([cy], RealLe) == [cy];
    assert SortBy([cx, cy], RealLe) == [cx, cy];
    assert CeilingOf([cx, cy], 0.95) == cy;
  }
}
