/**
 * src/enclave/scoring/yield_score.py: the score of a round, spelled out on the records themselves:
 * what each is charged, what the charges are lowered to, and what the fold returns.
 */
module ScoringLaws {
  import opened Numbers
  import opened Records
  import opened Sorting
  import opened Sums
  import opened Wrappers
  import opened YieldScore

  // ----- One record -----

  /** The spend between floor and cap, and the penalty on top for a failure. */
  function ChargeOf(r: InstanceRecord, p: ScoringParams): real {
    (if r.spend < p.denominatorFloor then p.denominatorFloor
     else if r.spend > p.spendCap then p.spendCap
     else r.spend)
    + (if r.outcome == SOLVED then 0.0 else p.failurePenalty)
  }

  /** A solved record is charged its spend, the floor below it and the cap above it. */
  lemma SolvedCharge(r: InstanceRecord, p: ScoringParams)
    requires ValidParams(p) && r.outcome == SOLVED
    ensures p.denominatorFloor <= r.spend <= p.spendCap ==> ChargedCost(r, p) == r.spend
    ensures r.spend < p.denominatorFloor ==> ChargedCost(r, p) == p.denominatorFloor
    ensures r.spend > p.spendCap ==> ChargedCost(r, p) == p.spendCap
  {
  }

  /** A record of the same spend that was not solved is charged the failure penalty more. */
  lemma FailureCharge(solved: InstanceRecord, failed: InstanceRecord, p: ScoringParams)
    requires solved.outcome == SOLVED && failed.outcome != SOLVED && failed.spend == solved.spend
    ensures ChargedCost(failed, p) == ChargedCost(solved, p) + p.failurePenalty
  {
  }

  lemma ChargeIs(r: InstanceRecord, p: ScoringParams)
    requires ValidParams(p)
    ensures ChargedCost(r, p) == ChargeOf(r, p)
  {
    var solved := r.(outcome := SOLVED);
    SolvedCharge(solved, p);
    if r.outcome != SOLVED {
      FailureCharge(solved, r, p);
    }
  }

  // ----- A round -----

  /** Every outcome but the four that are nobody's fault counts. */
  predicate Counts(r: InstanceRecord) {
    r.outcome !in {RELAY_UNAVAILABLE, PROVIDER_ERROR, ENVIRONMENT_FAULT, EVIDENCE_UNREOPENABLE}
  }

  predicate Solves(r: InstanceRecord) { r.outcome == SOLVED }

  predicate Voids(r: InstanceRecord) { Counts(r) && r.audited && r.auditPassed == Some(false) }

  function Under(x: real, ceiling: Option<real>): real {
    if ceiling.Some? && ceiling.value < x then ceiling.value else x
  }

  /** What the records that count are charged together, each under the ceiling. */
  function Billed(records: seq<InstanceRecord>, p: ScoringParams, ceiling: Option<real>): real {
    if records == [] then 0.0 else
      var last := records[|records| - 1];
      Billed(records[..|records| - 1], p, ceiling) + if Counts(last) then Under(ChargeOf(last, p), ceiling) else 0.0
  }

  function ChargedBelow(p: ScoringParams, c: real): InstanceRecord -> bool {
    r => Counts(r) && ChargeOf(r, p) < c
  }

  function ChargedAtMost(p: ScoringParams, c: real): InstanceRecord -> bool {
    r => Counts(r) && ChargeOf(r, p) <= c
  }

  /** Fewer than q n are below, and no fewer at most. */
  predicate Cuts(quantile: real, n: nat, below: nat, atMost: nat) {
    below as real < quantile * n as real <= atMost as real
  }

  /**
   * The ceiling is the m-th smallest charge for the least m >= q n: fewer than m charges are below
   * it, and at least m are not above it.
   */
  ghost predicate IsCeiling(records: seq<InstanceRecord>, p: ScoringParams, quantile: real, c: real) {
    Cuts(quantile, CountBy(records, Counts),
         CountBy(records, ChargedBelow(p, c)), CountBy(records, ChargedAtMost(p, c)))
  }

  function Below(c: real): real -> bool { x => x < c }

  /** In sorted order, the element at `k` is below `c` when more than `k` elements are. */
  lemma {:induction false} SortedRankBelow(s: seq<real>, k: nat, c: real)
    requires Sorted(s, RealLe) && k < |s|
    ensures s[k] < c <==> CountBy(s, Below(c)) > k
  {
    var n := |s| - 1;
    if k < n {
      SortedRankBelow(s[..n], k, c);
      if s[n] < c {
        assert RealLe(s[k], s[n]);
      }
    } else if s[n] < c {
      forall i | 0 <= i < |s| ensures s[i] < c {
        assert i < n ==> RealLe(s[i], s[n]);
      }
      CountAll(s, Below(c));
    }
  }

  lemma {:induction false} FewBelowCeiling(values: seq<real>, quantile: real)
    requires values != []
    ensures CountBy(values, Below(CeilingOf(values, quantile))) <= CeilingRank(|values|, quantile)
  {
    var c, sorted := CeilingOf(values, quantile), SortBy(values, RealLe);
    RealOrder();
    SortBySorted(values, RealLe);
    SortedRankBelow(sorted, CeilingRank(|values|, quantile), c);
    CountByPermutation(sorted, values, Below(c));
  }

  lemma {:induction false} KeepsLast(records: seq<InstanceRecord>)
    requires records != []
    ensures var before, last := records[..|records| - 1], records[|records| - 1];
      Scoreable(records) == if Counts(last) then Scoreable(before) + [last] else Scoreable(before)
  {
  }

  lemma {:induction false} CountMore<T>(s: seq<T>, x: T, f: T -> bool)
    ensures CountBy(s + [x], f) == CountBy(s, f) + if f(x) then 1 else 0
  {
    assert (s + [x])[..|s|] == s;
  }

  lemma {:induction false} SumMore(s: seq<real>, x: real, f: real -> real)
    ensures SumBy(s + [x], f) == SumBy(s, f) + f(x)
  {
    assert (s + [x])[..|s|] == s;
  }

  lemma {:induction false} KeptCount(records: seq<InstanceRecord>)
    ensures |Scoreable(records)| == CountBy(records, Counts)
  {
    if records != [] {
      KeptCount(records[..|records| - 1]);
    }
  }

  lemma {:induction false} KeptSolved(records: seq<InstanceRecord>)
    ensures CountBy(Scoreable(records), IsSolved) == CountBy(records, Solves)
  {
    if records != [] {
      var before, last := records[..|records| - 1], records[|records| - 1];
      KeptSolved(before);
      KeepsLast(records);
      CountMore(Scoreable(before), last, IsSolved);
    }
  }

  lemma {:induction false} ChargesMore(kept: seq<InstanceRecord>, r: InstanceRecord, p: ScoringParams)
    requires ValidParams(p)
    ensures Charges(kept + [r], p) == Charges(kept, p) + [ChargeOf(r, p)]
  {
    ChargeIs(r, p);
  }

  lemma {:induction false} KeptBelow(records: seq<InstanceRecord>, p: ScoringParams, c: real)
    requires ValidParams(p)
    ensures CountBy(Charges(Scoreable(records), p), Below(c)) == CountBy(records, ChargedBelow(p, c))
  {
    if records != [] {
      var before, last := records[..|records| - 1], records[|records| - 1];
      KeptBelow(before, p, c);
      KeepsLast(records);
      ChargesMore(Scoreable(before), last, p);
      CountMore(Charges(Scoreable(before), p), ChargeOf(last, p), Below(c));
    }
  }

  lemma {:induction false} KeptAtMost(records: seq<InstanceRecord>, p: ScoringParams, c: real)
    requires ValidParams(p)
    ensures CountBy(Charges(Scoreable(records), p), AtMost(c)) == CountBy(records, ChargedAtMost(p, c))
  {
    if records != [] {
      var before, last := records[..|records| - 1], records[|records| - 1];
      KeptAtMost(before, p, c);
      KeepsLast(records);
      ChargesMore(Scoreable(before), last, p);
      CountMore(Charges(Scoreable(before), p), ChargeOf(last, p), AtMost(c));
    }
  }

  lemma {:induction false} KeptBill(records: seq<InstanceRecord>, p: ScoringParams, ceiling: Option<real>)
    requires ValidParams(p)
    ensures SumBy(Charges(Scoreable(records), p), LoweredTo(ceiling)) == Billed(records, p, ceiling)
  {
    if records != [] {
      var before, last := records[..|records| - 1], records[|records| - 1];
      KeptBill(before, p, ceiling);
      KeepsLast(records);
      ChargesMore(Scoreable(before), last, p);
      SumMore(Charges(Scoreable(before), p), ChargeOf(last, p), LoweredTo(ceiling));
    }
  }

  lemma LeastAtLeast(x: real, below: nat, atMost: nat)
    requires below <= Ceiling(x) - 1 < atMost
    ensures below as real < x <= atMost as real
  {
  }

  lemma {:induction false} CeilingCuts(values: seq<real>, quantile: real)
    requires values != [] && 0.5 < quantile <= 1.0
    ensures var c := CeilingOf(values, quantile);
      Cuts(quantile, |values|, CountBy(values, Below(c)), CountBy(values, AtMost(c)))
  {
    var c := CeilingOf(values, quantile);
    RankExact(|values|, quantile);
    FewBelowCeiling(values, quantile);
    CeilingCovers(values, quantile);
    LeastAtLeast(quantile * |values| as real, CountBy(values, Below(c)), CountBy(values, AtMost(c)));
  }

  lemma {:induction false} CeilingIs(records: seq<InstanceRecord>, p: ScoringParams, quantile: real)
    requires ValidParams(p) && p.winsorizeQuantile == Some(quantile) && Scoreable(records) != []
    ensures IsCeiling(records, p, quantile, CeilingOf(Charges(Scoreable(records), p), quantile))
  {
    var charges := Charges(Scoreable(records), p);
    var c := CeilingOf(charges, quantile);
    CeilingCuts(charges, quantile);
    KeptCount(records);
    KeptBelow(records, p, c);
    KeptAtMost(records, p, c);
  }

  /** What a round's bill comes to, and under which ceiling. */
  lemma {:induction false} BillIs(records: seq<InstanceRecord>, p: ScoringParams) returns (ceiling: Option<real>)
    requires ValidParams(p) && Scoreable(records) != []
    ensures ceiling.Some? == p.winsorizeQuantile.Some?
    ensures ceiling.Some? ==> IsCeiling(records, p, p.winsorizeQuantile.value, ceiling.value)
    ensures Sum(Bill(Scoreable(records), p)) == Billed(records, p, ceiling)
  {
    ceiling := CeilingIn(Charges(Scoreable(records), p), p);
    BillIsLowered(Scoreable(records), p);
    KeptBill(records, p, ceiling);
    if p.winsorizeQuantile.Some? {
      CeilingIs(records, p, p.winsorizeQuantile.value);
    }
  }

  lemma {:induction false} NoneCounts(records: seq<InstanceRecord>)
    ensures Scoreable(records) == [] <==> forall r :: r in records ==> !Counts(r)
  {
    if r :| r in records && Counts(r) {
      assert r in Scoreable(records);
    }
    if Scoreable(records) != [] {
      assert Scoreable(records)[0] in records && Counts(Scoreable(records)[0]);
    }
  }

  lemma {:induction false} SomeVoids(records: seq<InstanceRecord>)
    ensures FirstFailedAudit(Scoreable(records)).Some? <==> exists r :: r in records && Voids(r)
  {
    if r :| r in records && Voids(r) {
      assert r in Scoreable(records) && r.FailedAudit();
    }
    var failed := FirstFailedAudit(Scoreable(records));
    if failed.Some? {
      assert Voids(failed.value);
    }
  }

  lemma {:induction false} VerdictExactly(id: string, records: seq<InstanceRecord>, p: ScoringParams)
    ensures var score := ScoreRound(id, records, p);
      && score.submissionId == id
      && score.scored == CountBy(records, Counts) && score.excluded == |records| - score.scored
      && (score.verdict == NO_DECISION <==> forall r :: r in records ==> !Counts(r))
      && (score.verdict == FAIL <==> exists r :: r in records && Voids(r))
      && (score.verdict != PASS ==> score.yieldScore == 0.0 && score.solved == 0 && score.totalCharged == 0.0)
      && (score.voidReason.None? <==> score.verdict == PASS)
  {
    KeptCount(records);
    NoneCounts(records);
    SomeVoids(records);
  }

  lemma YieldIsNear(solved: nat, total: real)
    requires total > 0.0
    ensures -0.0000000000005 <= Yield(solved, total) - solved as real / total <= 0.0000000000005
  {
    var x := solved as real / total;
    assert x * YIELD_SCALE - 0.5 <= HalfEven(x * YIELD_SCALE) as real <= x * YIELD_SCALE + 0.5;
  }

  /**
   * The score of a round: no decision when nothing counts, void when a record that counts failed its
   * audit, and otherwise solves over charges to within half a quantum of 10^-12, each charge under the
   * ceiling that the quantile sets.
   */
  lemma {:induction false} RoundExactly(id: string, records: seq<InstanceRecord>, p: ScoringParams)
      returns (ceiling: Option<real>)
    requires ValidParams(p)
    ensures var score := ScoreRound(id, records, p);
      && (score.verdict == NO_DECISION <==> forall r :: r in records ==> !Counts(r))
      && (score.verdict == FAIL <==> exists r :: r in records && Voids(r))
      && (score.verdict != PASS ==> score.yieldScore == 0.0 && score.solved == 0)
      && (score.verdict == PASS ==>
            && score.solved == CountBy(records, Solves)
            && score.totalCharged == Billed(records, p, ceiling) > 0.0
            && ceiling.Some? == p.winsorizeQuantile.Some?
            && (ceiling.Some? ==> IsCeiling(records, p, p.winsorizeQuantile.value, ceiling.value))
            && -0.0000000000005 <= score.yieldScore - score.solved as real / score.totalCharged <= 0.0000000000005)
  {
    ceiling := None;
    VerdictExactly(id, records, p);
    if ScoreRound(id, records, p).verdict == PASS {
      PassingScore(id, records, p);
      KeptSolved(records);
      ceiling := BillIs(records, p);
      BillPositive(Scoreable(records), p);
      YieldIsNear(CountBy(records, Solves), Billed(records, p, ceiling));
    }
  }

  // ----- Losing a solve, in numbers -----

  function Total(records: seq<InstanceRecord>, p: ScoringParams): real {
    if records == [] then 0.0 else Total(records[..|records| - 1], p) + ChargeOf(records[|records| - 1], p)
  }

  lemma {:induction false} TotalIs(records: seq<InstanceRecord>, p: ScoringParams)
    requires ValidParams(p)
    ensures Sum(Charges(records, p)) == Total(records, p)
  {
    if records != [] {
      var n := |records| - 1;
      TotalIs(records[..n], p);
      ChargeIs(records[n], p);
      assert Charges(records, p)[..n] == Charges(records[..n], p);
    }
  }

  /**
   * Where winsorising lowers nothing: a solve charged c given up for a failure that spends no more
   * than the floor lowers solved / total if and only if c is below floor + penalty + total / solved.
   */
  lemma {:induction false} GivingUpASolve(
      records: seq<InstanceRecord>, i: nat, lost: InstanceRecord, p: ScoringParams)
    requires ValidParams(p) && LowersNothing(|records|, p)
    requires i < |records| && records[i].outcome == SOLVED
    requires lost.outcome != SOLVED && lost.spend <= p.denominatorFloor
    ensures var total, solved, c := Total(records, p), CountBy(records, IsSolved), ChargeOf(records[i], p);
      var total' := total - c + p.denominatorFloor + p.failurePenalty;
      && solved > 0 && total > 0.0 && total' > 0.0
      && Sum(Bill(records, p)) == total && Sum(Bill(records[i := lost], p)) == total'
      && CountBy(records[i := lost], IsSolved) == solved - 1
      && ((solved - 1) as real / total' < solved as real / total <==>
          c < p.denominatorFloor + p.failurePenalty + total / solved as real)
  {
    LosingASolveUnlowered(records, i, lost, p);
    TotalIs(records, p);
    ChargeIs(records[i], p);
    ChargeIs(lost, p);
    SwapSolved(records, i, lost);
    LoweredNot(records, i, lost, p);
  }

  lemma {:induction false} LoweredNot(records: seq<InstanceRecord>, i: nat, lost: InstanceRecord, p: ScoringParams)
    requires i < |records| && LowersNothing(|records|, p)
    ensures Sum(Bill(records[i := lost], p))
      == Sum(Charges(records, p)) - ChargedCost(records[i], p) + ChargedCost(lost, p)
  {
    var charges := Charges(records, p);
    var swapped := charges[i := ChargedCost(lost, p)];
    assert Charges(records[i := lost], p) == swapped;
    SwapSum(charges, i, ChargedCost(lost, p));
    if p.winsorizeQuantile.Some? {
      NothingLowered(swapped, p.winsorizeQuantile.value);
    }
  }
}
