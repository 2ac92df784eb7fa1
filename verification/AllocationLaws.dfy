/**
 * src/enclave/scoring/allocation.py: what an allocation pays, said on the scores, the target for the
 * top rank and the ppm that come out.
 */
module AllocationLaws {
  import opened Apportionment
  import opened Decay
  import opened Numbers
  import opened Ranking
  import opened Sorting
  import opened Sums
  import opened Wrappers

  /** How far from the target so many halvings may leave the top slot of a full schedule. */
  function Tolerance(paidRanks: nat, halvings: nat): real {
    (paidRanks * (paidRanks - 1)) as real / 2.0 * (0.000000000001 + TwoToMinus(halvings))
  }

  predicate Close(x: real, y: real, slack: real) { -slack <= x - y <= slack }

  /** The part of a million that `share` comes to, to within one ppm. */
  predicate NearPpm(ppm: int, share: real) { -1.0 < ppm as real - share * 1_000_000.0 < 1.0 }

  /** As many slots as there are entries above the minimum, up to the paid ranks. */
  function Slots(scores: seq<Scored>, p: AllocationParams): nat {
    var eligible := CountBy(scores, Above(p.minScore));
    if eligible < p.paidRanks then eligible else p.paidRanks
  }

  /** Positive slots that add up to one, each `ratio` times the one before it. */
  ghost predicate GeometricWith(schedule: seq<real>, ratio: real) {
    && (forall k :: 0 <= k < |schedule| ==> schedule[k] > 0.0)
    && (forall k :: 0 <= k < |schedule| - 1 ==> schedule[k + 1] == schedule[k] * ratio)
    && Sum(schedule) == 1.0
  }

  lemma {:induction false} EligibleCount(scores: seq<Scored>, minScore: real)
    ensures |Eligible(scores, minScore)| == CountBy(scores, Above(minScore))
  {
    if scores != [] {
      EligibleCount(scores[..|scores| - 1], minScore);
    }
  }

  lemma {:induction false} PaidCount(scores: seq<Scored>, p: AllocationParams)
    requires ValidParams(p)
    ensures |Paid(scores, p)| == Slots(scores, p)
    ensures |RankedIn(scores, p)| == CountBy(scores, Above(p.minScore))
  {
    EligibleCount(scores, p.minScore);
    var eligible := Eligible(scores, p.minScore);
    assert |SortBy(eligible, Ahead)| == |eligible| by {
      assert |multiset(SortBy(eligible, Ahead))| == |multiset(eligible)|;
    }
  }

  lemma RatioOf(x: real, y: real, total: real)
    requires total > 0.0
    ensures x * y / total == x / total * y
  {
  }

  lemma {:induction false} ScheduleRatio(n: nat, decay: real, k: nat)
    requires decay > 0.0 && k + 1 < n
    ensures GeometricSchedule(n, decay)[k + 1] == GeometricSchedule(n, decay)[k] * decay
  {
    RawTotal(decay, n);
    RatioOf(Pow(decay, k), decay, GeoSum(decay, n));
  }

  lemma {:induction false} ScheduleIsGeometric(n: nat, decay: real)
    requires n > 0 && decay > 0.0 && (n > 1 ==> decay < 1.0)
    ensures GeometricWith(GeometricSchedule(n, decay), decay)
  {
    GeometricIsProper(n, decay);
    forall k | 0 <= k < n - 1
      ensures GeometricSchedule(n, decay)[k + 1] == GeometricSchedule(n, decay)[k] * decay
    {
      ScheduleRatio(n, decay, k);
    }
  }

  lemma {:induction false} TopSlot(n: nat, decay: real)
    requires n > 0 && decay > 0.0
    ensures GeoSum(decay, n) > 0.0 && GeometricSchedule(n, decay)[0] == 1.0 / GeoSum(decay, n)
  {
    RawTotal(decay, n);
  }

  lemma {:induction false} SolvedMeetsTarget(n: nat, share: real, ratio: real, steps: nat)
    requires n >= 2 && 1.0 / n as real < share <= 1.0 && ratio == SolvedDecay(n, share, steps)
    ensures 0.0 < ratio < 1.0 && Close(GeometricSchedule(n, ratio)[0], share, Tolerance(n, steps + 1))
  {
    DecayAccuracyAnyTarget(n, share, steps);
  }

  /** The ratio that is solved for starts a schedule over all paid ranks near the target. */
  lemma {:induction false} RatioMeetsTarget(p: AllocationParams, ratio: real)
    requires ValidParams(p) && p.paidRanks >= 2 && ratio == DecayOf(p)
    ensures 0.0 < ratio < 1.0 && GeoSum(ratio, p.paidRanks) > 0.0
    ensures Close(1.0 / GeoSum(ratio, p.paidRanks), p.topShare, Tolerance(p.paidRanks, 401))
    ensures GeometricSchedule(p.paidRanks, ratio)[0] == 1.0 / GeoSum(ratio, p.paidRanks)
  {
    SolvedMeetsTarget(p.paidRanks, p.topShare, ratio, STEPS);
    TopSlot(p.paidRanks, ratio);
  }

  /** What an allocation is put together from. */
  lemma {:induction false} AllocatedFrom(scores: seq<Scored>, p: AllocationParams) returns (ratio: real)
    requires ValidParams(p) && DistinctIds(scores) && CountBy(scores, Above(p.minScore)) > 0
    ensures Allocated(scores, p).Success? && |Paid(scores, p)| == Slots(scores, p) > 0
    ensures ratio == DecayOf(p) && Eligible(scores, p.minScore) != []
    ensures Allocated(scores, p).value.schedule == GeometricSchedule(Slots(scores, p), ratio)
  {
    EligibleCount(scores, p.minScore);
    PaidAllocation(scores, p);
    PaidCount(scores, p);
    ratio := DecayOf(p);
  }

  /**
   * The schedule of an allocation: as many slots as there is somebody for, adding up to one, in the
   * one ratio for which a schedule over all paid ranks starts with the target.
   */
  lemma {:induction false} ScheduleMeetsTarget(scores: seq<Scored>, p: AllocationParams) returns (ratio: real)
    requires ValidParams(p) && DistinctIds(scores) && CountBy(scores, Above(p.minScore)) > 0
    ensures Allocated(scores, p).Success?
    ensures var schedule := Allocated(scores, p).value.schedule;
      |schedule| == Slots(scores, p) && GeometricWith(schedule, ratio)
    ensures p.paidRanks >= 2 ==>
      && 0.0 < ratio < 1.0 && GeoSum(ratio, p.paidRanks) > 0.0
      && Close(1.0 / GeoSum(ratio, p.paidRanks), p.topShare, Tolerance(p.paidRanks, 401))
  {
    ratio := AllocatedFrom(scores, p);
    ScheduleIsGeometric(Slots(scores, p), ratio);
    if p.paidRanks >= 2 {
      RatioMeetsTarget(p, ratio);
    }
  }

  /** With somebody for every paid rank, the first slot is the target. */
  lemma {:induction false} TopSlotIsTarget(scores: seq<Scored>, p: AllocationParams)
    requires ValidParams(p) && DistinctIds(scores)
    requires CountBy(scores, Above(p.minScore)) >= p.paidRanks >= 2
    ensures Allocated(scores, p).Success? && |Allocated(scores, p).value.schedule| == p.paidRanks
    ensures Close(Allocated(scores, p).value.schedule[0], p.topShare, Tolerance(p.paidRanks, 401))
  {
    var ratio := AllocatedFrom(scores, p);
    RatioMeetsTarget(p, ratio);
  }

  // ----- What an entry is paid -----

  lemma {:induction false} RunSpan(paid: seq<Scored>, i: nat, above: nat, upTo: nat)
    requires Sorted(paid, Ahead) && i < |paid|
    requires forall k :: 0 <= k < |paid| ==> (paid[k].1 > paid[i].1 <==> k < above)
    requires forall k :: 0 <= k < |paid| ==> (paid[k].1 >= paid[i].1 <==> k < upTo)
    ensures RunStart(paid, i) == above
    ensures RunEnd(paid, i) + 1 == if upTo < |paid| then upTo else |paid|
  {
    var s, e := RunStart(paid, i), RunEnd(paid, i);
    RunsAreTies(paid, i, s);
    RunsAreTies(paid, i, e);
    if s > 0 {
      RunsAreTies(paid, i, s - 1);
    }
    if e + 1 < |paid| {
      RunsAreTies(paid, i, e + 1);
    }
  }

  lemma {:induction false} ScoreRuns(scores: seq<Scored>, p: AllocationParams, i: nat)
    requires ValidParams(p) && DistinctIds(scores) && i < |Paid(scores, p)|
    ensures var paid, score := Paid(scores, p), Paid(scores, p)[i].1;
      var upTo := CountBy(scores, AtLeast(score));
      && RunStart(paid, i) == CountBy(scores, Above(score))
      && RunEnd(paid, i) + 1 == if upTo < p.paidRanks then upTo else p.paidRanks
  {
    var paid, ranked := Paid(scores, p), RankedIn(scores, p);
    var score := paid[i].1;
    RankedInShape(scores, p);
    PaidIsEligible(scores, p, i);
    RankCounts(scores, p.minScore, Above(score));
    RankCounts(scores, p.minScore, AtLeast(score));
    TopRuns(ranked, p.paidRanks, i);
  }

  /** The run of a score among the first `n` of a ranking. */
  lemma {:induction false} TopRuns(ranked: seq<Scored>, n: nat, i: nat)
    requires Sorted(ranked, Ahead) && i < |Top(ranked, n)|
    ensures var paid, score := Top(ranked, n), Top(ranked, n)[i].1;
      var upTo := CountBy(ranked, AtLeast(score));
      && RunStart(paid, i) == CountBy(ranked, Above(score))
      && RunEnd(paid, i) + 1 == if upTo < n then upTo else n
  {
    var paid := Top(ranked, n);
    var score := paid[i].1;
    assert Sorted(paid, Ahead);
    forall k | 0 <= k < |paid|
      ensures paid[k].1 > score <==> k < CountBy(ranked, Above(score))
      ensures paid[k].1 >= score <==> k < CountBy(ranked, AtLeast(score))
    {
      ScoreIndex(ranked, k, score);
    }
    RunSpan(paid, i, CountBy(ranked, Above(score)), CountBy(ranked, AtLeast(score)));
  }

  lemma {:induction false} DueNear(
      paid: seq<Scored>, schedule: seq<real>, shares: seq<(string, real)>, ppm: map<string, int>, i: nat)
    requires i < |paid| == |schedule| && shares == TiedShares(paid, schedule)
    requires ProperShares(shares) && SumBy(shares, ShareOf) == 1.0 && Apportioned(shares) == Success(ppm)
    ensures paid[i].0 in ppm
    ensures NearPpm(ppm[paid[i].0], TiedShare(paid, schedule, i))
  {
    ShareNear(shares, i);
  }

  /** An entry at a paid rank gets its tied share of a million to within one ppm. */
  lemma {:induction false} PaidNear(scores: seq<Scored>, p: AllocationParams, i: nat)
    requires ValidParams(p) && DistinctIds(scores) && CountBy(scores, Above(p.minScore)) > 0
    requires i < |Paid(scores, p)|
    ensures Allocated(scores, p).Success?
    ensures var r, id := Allocated(scores, p).value, Paid(scores, p)[i].0;
      && |r.schedule| == |Paid(scores, p)| && id in r.ppm
      && NearPpm(r.ppm[id], TiedShare(Paid(scores, p), r.schedule, i))
  {
    var ratio := AllocatedFrom(scores, p);
    PaidSharesProper(scores, p);
    PaidAllocation(scores, p);
    DueNear(Paid(scores, p), GeometricSchedule(|Paid(scores, p)|, ratio), PaidShares(scores, p),
            Apportioned(PaidShares(scores, p)).value, i);
  }

  lemma {:induction false} EligibleCounts(scores: seq<Scored>, minScore: real, a: Scored)
    requires a in scores && a.1 > minScore
    ensures CountBy(scores, Above(minScore)) > 0 && Eligible(scores, minScore) != []
  {
    EligibleCount(scores, minScore);
    assert a in Eligible(scores, minScore);
  }

  /** `ppm` is the mean of the slots `start..end`, the latter not included, of a million. */
  predicate MeanPaid(ppm: int, schedule: seq<real>, start: nat, end: nat) {
    start < end <= |schedule| && NearPpm(ppm, Sum(schedule[start..end]) / (end - start) as real)
  }

  lemma {:induction false} MeanOfRun(
      paid: seq<Scored>, schedule: seq<real>, ppm: int, i: nat, start: nat, end: nat)
    requires i < |paid| == |schedule| && start == RunStart(paid, i) && end == RunEnd(paid, i) + 1
    requires NearPpm(ppm, TiedShare(paid, schedule, i))
    ensures MeanPaid(ppm, schedule, start, end)
  {
  }

  /** Where the slots of a score end: behind all that scored no less, or behind the last paid rank. */
  function EndOf(scores: seq<Scored>, p: AllocationParams, score: real): nat {
    var atLeast := CountBy(scores, AtLeast(score));
    if atLeast < p.paidRanks then atLeast else p.paidRanks
  }

  lemma {:induction false} RankPaidTheMean(scores: seq<Scored>, p: AllocationParams, i: nat, start: nat, end: nat)
    requires ValidParams(p) && DistinctIds(scores) && CountBy(scores, Above(p.minScore)) > 0
    requires i < |Paid(scores, p)|
    requires start == RunStart(Paid(scores, p), i) && end == RunEnd(Paid(scores, p), i) + 1
    ensures Allocated(scores, p).Success?
    ensures var r, id := Allocated(scores, p).value, Paid(scores, p)[i].0;
      id in r.ppm && MeanPaid(r.ppm[id], r.schedule, start, end)
  {
    PaidNear(scores, p, i);
    var r := Allocated(scores, p).value;
    MeanOfRun(Paid(scores, p), r.schedule, r.ppm[Paid(scores, p)[i].0], i, start, end);
  }

  /**
   * Everybody paid gets the mean of the slots that the entries of the same score take up, of a million,
   * to within one ppm: the slots from as many as scored more up to as many as scored no less.
   */
  lemma {:induction false} PaidTheMean(scores: seq<Scored>, p: AllocationParams, a: Scored)
    requires ValidParams(p) && DistinctIds(scores) && a in scores && a.1 > p.minScore
    requires CountBy(scores, StrictlyAhead(a)) < p.paidRanks
    ensures Allocated(scores, p).Success?
    ensures var r := Allocated(scores, p).value;
      && a.0 in r.ppm
      && MeanPaid(r.ppm[a.0], r.schedule, CountBy(scores, Above(a.1)), EndOf(scores, p, a.1))
  {
    EligibleCounts(scores, p.minScore, a);
    PaidExactly(scores, p, a);
    var i := PaidPosition(scores, p, a);
    ScoreRuns(scores, p, i);
    RankPaidTheMean(scores, p, i, CountBy(scores, Above(a.1)), EndOf(scores, p, a.1));
  }

  lemma {:induction false} NoneAbove(scores: seq<Scored>, best: Scored)
    requires forall b :: b in scores ==> b == best || b.1 < best.1
    ensures CountBy(scores, Above(best.1)) == 0 && CountBy(scores, StrictlyAhead(best)) == 0
  {
    if scores != [] {
      assert scores[|scores| - 1] in scores;
      NoneAbove(scores[..|scores| - 1], best);
    }
  }

  lemma {:induction false} NoneTied(scores: seq<Scored>, best: Scored)
    requires DistinctIds(scores) && best in scores
    requires forall b :: b in scores ==> b == best || b.1 < best.1
    ensures CountBy(scores, AtLeast(best.1)) == 1
  {
    var n := |scores| - 1;
    if best in scores[..n] {
      assert scores[n] in scores && scores[n] != best;
      NoneTied(scores[..n], best);
    } else {
      forall k | 0 <= k < n ensures !AtLeast(best.1)(scores[k]) {
        assert scores[k] in scores[..n] && scores[k] in scores;
      }
      NoneCounted(scores[..n], AtLeast(best.1));
      assert scores[n] == best;
    }
  }

  lemma {:induction false} NoneCounted<T>(s: seq<T>, f: T -> bool)
    requires forall k :: 0 <= k < |s| ==> !f(s[k])
    ensures CountBy(s, f) == 0
  {
    CountUpTo(s, 0, f);
  }

  /**
   * A best score that nobody ties is paid the first slot, and, with somebody for every paid rank, the
   * target that the parameters name, to within one ppm and the tolerance of the bisection.
   */
  lemma {:induction false} WinnerGetsTheTarget(scores: seq<Scored>, p: AllocationParams, best: Scored)
    requires ValidParams(p) && DistinctIds(scores) && best in scores && best.1 > p.minScore
    requires forall b :: b in scores ==> b == best || b.1 < best.1
    ensures Allocated(scores, p).Success?
    ensures var r := Allocated(scores, p).value;
      && r.schedule != [] && best.0 in r.ppm
      && NearPpm(r.ppm[best.0], r.schedule[0])
      && (CountBy(scores, Above(p.minScore)) >= p.paidRanks >= 2 ==>
            Close(r.ppm[best.0] as real, p.topShare * 1_000_000.0, 1.0 + Tolerance(p.paidRanks, 401) * 1_000_000.0))
  {
    NoneAbove(scores, best);
    NoneTied(scores, best);
    PaidTheMean(scores, p, best);
    var schedule := Allocated(scores, p).value.schedule;
    FirstOfOne(schedule);
    if CountBy(scores, Above(p.minScore)) >= p.paidRanks >= 2 {
      TopSlotIsTarget(scores, p);
    }
  }

  lemma FirstOfOne(schedule: seq<real>)
    requires schedule != []
    ensures Sum(schedule[0..1]) / 1 as real == schedule[0]
  {
    assert schedule[0..1][..0] == [];
  }
}
