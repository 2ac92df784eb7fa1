/** src/enclave/scoring/allocation.py: ranks, tied shares and the allocation they come to. */
module Ranking {
  import opened Apportionment
  import opened Decay
  import opened Numbers
  import opened Sorting
  import opened Strings
  import opened Sums
  import opened Wrappers

  type Scored = (string, real)

  datatype AllocationParams = AllocationParams(paidRanks: nat, topShare: real, minScore: real)

  /** What the constructor of the parameters enforces. */
  predicate ValidParams(p: AllocationParams) {
    && p.paidRanks >= 1
    && 0.0 < p.topShare <= 1.0
    && (p.paidRanks > 1 ==> p.topShare > 1.0 / p.paidRanks as real)
  }

  datatype Allocation = Allocation(
    ppm: map<string, int>, schedule: seq<real>, ranked: seq<Scored>)

  /** Rank order: higher score first, then by identifier. */
  predicate Ahead(a: Scored, b: Scored) {
    a.1 > b.1 || (a.1 == b.1 && LexLe(a.0, b.0))
  }

  lemma AheadOrder()
    ensures TotalOrder(Ahead)
  {
    LexOrder();
  }

  function Eligible(scores: seq<Scored>, minScore: real): (r: seq<Scored>)
    ensures forall s :: s in r <==> s in scores && s.1 > minScore
  {
    if scores == [] then [] else
      var last := scores[|scores| - 1];
      assert scores == scores[..|scores| - 1] + [last];
      Eligible(scores[..|scores| - 1], minScore) + if last.1 > minScore then [last] else []
  }

  // ----- Ties -----

  /** First and last position of the maximal run of equal scores around `i`. */
  function RunStart(paid: seq<Scored>, i: nat): (s: nat)
    requires i < |paid|
    ensures s <= i
  {
    if i > 0 && paid[i - 1].1 == paid[i].1 then RunStart(paid, i - 1) else i
  }

  function RunEnd(paid: seq<Scored>, i: nat): (e: nat)
    requires i < |paid|
    ensures i <= e < |paid|
    decreases |paid| - i
  {
    if i + 1 < |paid| && paid[i + 1].1 == paid[i].1 then RunEnd(paid, i + 1) else i
  }

  /** The mean of the schedule slots `start..end`, both included. */
  function Mean(schedule: seq<real>, start: nat, end: nat): real
    requires start <= end < |schedule|
  {
    Sum(schedule[start..end + 1]) / (end + 1 - start) as real
  }

  function TiedShare(paid: seq<Scored>, schedule: seq<real>, i: nat): real
    requires i < |paid| == |schedule|
  {
    Mean(schedule, RunStart(paid, i), RunEnd(paid, i))
  }

  function TiedShares(paid: seq<Scored>, schedule: seq<real>): (r: seq<(string, real)>)
    requires |paid| == |schedule|
    ensures |r| == |paid| && SharedSoFar(paid, schedule, r)
  {
    seq(|paid|, i requires 0 <= i < |paid| => (paid[i].0, TiedShare(paid, schedule, i)))
  }

  /** `shares` pays the first of the `paid` entries, each with its run's mean. */
  ghost predicate SharedSoFar(paid: seq<Scored>, schedule: seq<real>, shares: seq<(string, real)>)
    requires |paid| == |schedule|
  {
    && |shares| <= |paid|
    && forall k :: 0 <= k < |shares| ==> shares[k] == (paid[k].0, TiedShare(paid, schedule, k))
  }

  lemma ShareOne(paid: seq<Scored>, schedule: seq<real>, shares: seq<(string, real)>, shared: real)
    requires |shares| < |paid| == |schedule| && SharedSoFar(paid, schedule, shares)
    requires TiedShare(paid, schedule, |shares|) == shared
    ensures SharedSoFar(paid, schedule, shares + [(paid[|shares|].0, shared)])
  {
  }

  ghost predicate Boundary(paid: seq<Scored>, b: nat) {
    b <= |paid| && (0 < b < |paid| ==> paid[b - 1].1 != paid[b].1)
  }

  /** The loop that walks over the runs of equal scores. */
  method ShareTies(paid: seq<Scored>, schedule: seq<real>) returns (shares: seq<(string, real)>)
    requires |paid| == |schedule|
    ensures shares == TiedShares(paid, schedule)
  {
    shares := [];
    var start := 0;
    while start < |paid|
      invariant Boundary(paid, start) && |shares| == start
      invariant SharedSoFar(paid, schedule, shares)
    {
      var end := start;
      while end + 1 < |paid| && paid[end + 1].1 == paid[start].1
        invariant start <= end < |paid|
        invariant forall k :: start <= k <= end ==> paid[k].1 == paid[start].1
      {
        end := end + 1;
      }
      RunBetween(paid, start, end);
      var shared := Mean(schedule, start, end);
      for index := start to end + 1
        invariant |shares| == index && SharedSoFar(paid, schedule, shares)
      {
        ShareOne(paid, schedule, shares, shared);
        shares := shares + [(paid[index].0, shared)];
      }
      start := end + 1;
    }
    SharedWhole(paid, schedule, shares);
  }

  lemma SharedWhole(paid: seq<Scored>, schedule: seq<real>, shares: seq<(string, real)>)
    requires |shares| == |paid| == |schedule| && SharedSoFar(paid, schedule, shares)
    ensures shares == TiedShares(paid, schedule)
  {
  }

  /** Equal scores from one boundary to the next form one run. */
  lemma RunBetween(paid: seq<Scored>, start: nat, end: nat)
    requires start <= end < |paid| && Boundary(paid, start) && Boundary(paid, end + 1)
    requires forall k :: start <= k <= end ==> paid[k].1 == paid[start].1
    ensures forall k :: start <= k <= end ==> RunStart(paid, k) == start && RunEnd(paid, k) == end
  {
    forall k | start <= k <= end ensures RunStart(paid, k) == start && RunEnd(paid, k) == end {
      RunStartIs(paid, start, k);
      RunEndIs(paid, k, end);
    }
  }

  lemma {:induction false} RunStartIs(paid: seq<Scored>, start: nat, k: nat)
    requires start <= k < |paid| && Boundary(paid, start)
    requires forall j :: start <= j <= k ==> paid[j].1 == paid[k].1
    ensures RunStart(paid, k) == start
  {
    if k > start {
      RunStartIs(paid, start, k - 1);
    }
  }

  lemma {:induction false} RunEndIs(paid: seq<Scored>, k: nat, end: nat)
    requires k <= end < |paid| && Boundary(paid, end + 1)
    requires forall j :: k <= j <= end ==> paid[j].1 == paid[k].1
    ensures RunEnd(paid, k) == end
    decreases end - k
  {
    if k < end {
      RunEndIs(paid, k + 1, end);
    }
  }

  lemma {:induction false} RunIsTie(paid: seq<Scored>, i: nat)
    requires i < |paid|
    ensures var s, e := RunStart(paid, i), RunEnd(paid, i);
      && Boundary(paid, s) && Boundary(paid, e + 1)
      && forall k :: s <= k <= e ==> paid[k].1 == paid[i].1
  {
    RunStartTie(paid, i);
    RunEndTie(paid, i);
  }

  lemma {:induction false} RunStartTie(paid: seq<Scored>, i: nat)
    requires i < |paid|
    ensures Boundary(paid, RunStart(paid, i))
    ensures forall k :: RunStart(paid, i) <= k <= i ==> paid[k].1 == paid[i].1
  {
    if i > 0 && paid[i - 1].1 == paid[i].1 {
      RunStartTie(paid, i - 1);
    }
  }

  lemma {:induction false} RunEndTie(paid: seq<Scored>, i: nat)
    requires i < |paid|
    ensures Boundary(paid, RunEnd(paid, i) + 1)
    ensures forall k :: i <= k <= RunEnd(paid, i) ==> paid[k].1 == paid[i].1
    decreases |paid| - i
  {
    if i + 1 < |paid| && paid[i + 1].1 == paid[i].1 {
      RunEndTie(paid, i + 1);
    }
  }

  /** In rank order, sharing a slot mean and having equal scores are the same thing. */
  lemma RunsAreTies(paid: seq<Scored>, i: nat, k: nat)
    requires Sorted(paid, Ahead) && i < |paid| && k < |paid|
    ensures RunStart(paid, i) <= k <= RunEnd(paid, i) <==> paid[k].1 == paid[i].1
  {
    RunIsTie(paid, i);
    OutsideRun(paid, i, RunStart(paid, i), RunEnd(paid, i), k);
  }

  lemma OutsideRun(paid: seq<Scored>, i: nat, s: nat, e: nat, k: nat)
    requires Sorted(paid, Ahead) && s <= i <= e < |paid| && k < |paid|
    requires Boundary(paid, s) && Boundary(paid, e + 1)
    requires paid[s].1 == paid[i].1 == paid[e].1
    ensures k < s || e < k ==> paid[k].1 != paid[i].1
  {
    if k < s {
      ScoresFall(paid, k, s - 1);
      ScoresFall(paid, s - 1, s);
    } else if e < k {
      ScoresFall(paid, e + 1, k);
      ScoresFall(paid, e, e + 1);
    }
  }

  /** In rank order scores never grow. */
  lemma ScoresFall(paid: seq<Scored>, i: nat, j: nat)
    requires Sorted(paid, Ahead) && i <= j < |paid|
    ensures paid[i].1 >= paid[j].1
  {
    if i < j {
      assert Ahead(paid[i], paid[j]);
    }
  }

  lemma MeanTotal(schedule: seq<real>, start: nat, end: nat)
    requires start <= end < |schedule|
    ensures Times(end + 1 - start, Mean(schedule, start, end)) == Sum(schedule[start..end + 1])
  {
    TimesQuotient(end + 1 - start, Sum(schedule[start..end + 1]));
  }

  lemma RunConserves(
      paid: seq<Scored>, schedule: seq<real>, shares: seq<(string, real)>, s: nat, e: nat)
    requires |shares| == |paid| == |schedule| && SharedSoFar(paid, schedule, shares)
    requires s <= e < |paid|
    requires forall k :: s <= k <= e ==> RunStart(paid, k) == s && RunEnd(paid, k) == e
    ensures SumBy(shares[s..e + 1], ShareOf) == Sum(schedule[s..e + 1])
  {
    MeanTotal(schedule, s, e);
    RunAtMean(paid, schedule, shares, s, e, Mean(schedule, s, e));
  }

  lemma ShareAtMean(paid: seq<Scored>, schedule: seq<real>, shares: seq<(string, real)>, s: nat, e: nat, k: nat)
    requires |shares| == |paid| == |schedule| && SharedSoFar(paid, schedule, shares)
    requires s <= e < |paid| && k < |paid| && RunStart(paid, k) == s && RunEnd(paid, k) == e
    ensures ShareOf(shares[k]) == Mean(schedule, s, e)
  {
    assert shares[k] == (paid[k].0, TiedShare(paid, schedule, k));
  }

  lemma RunAtMean(paid: seq<Scored>, schedule: seq<real>, shares: seq<(string, real)>, s: nat, e: nat, mean: real)
    requires |shares| == |paid| == |schedule| && SharedSoFar(paid, schedule, shares)
    requires s <= e < |paid| && mean == Mean(schedule, s, e)
    requires forall k :: s <= k <= e ==> RunStart(paid, k) == s && RunEnd(paid, k) == e
    ensures SumBy(shares[s..e + 1], ShareOf) == Times(e + 1 - s, mean)
  {
    forall k | s <= k < e + 1 ensures ShareOf(shares[k]) == mean {
      ShareAtMean(paid, schedule, shares, s, e, k);
    }
    SumByConstant(shares, ShareOf, s, e + 1, mean);
  }

  /** Sharing slots within runs hands out exactly the schedule, up to any run boundary. */
  lemma {:induction false} TiesConserve(
      paid: seq<Scored>, schedule: seq<real>, shares: seq<(string, real)>, b: nat)
    requires |shares| == |paid| == |schedule| && SharedSoFar(paid, schedule, shares)
    requires Boundary(paid, b)
    ensures SumBy(shares[..b], ShareOf) == Sum(schedule[..b])
    decreases b
  {
    if b > 0 {
      var s := RunStart(paid, b - 1);
      LastRunConserves(paid, schedule, shares, b);
      TiesConserve(paid, schedule, shares, s);
      SumBySplit(shares, ShareOf, s, b);
      SumSplit(schedule, s, b);
    }
  }

  lemma LastRunConserves(paid: seq<Scored>, schedule: seq<real>, shares: seq<(string, real)>, b: nat)
    requires |shares| == |paid| == |schedule| && SharedSoFar(paid, schedule, shares)
    requires 0 < b <= |paid| && Boundary(paid, b)
    ensures var s := RunStart(paid, b - 1);
      Boundary(paid, s) && SumBy(shares[s..b], ShareOf) == Sum(schedule[s..b])
  {
    LastRun(paid, b);
    RunConserves(paid, schedule, shares, RunStart(paid, b - 1), b - 1);
  }

  /** The run that a boundary closes. */
  lemma LastRun(paid: seq<Scored>, b: nat)
    requires 0 < b <= |paid| && Boundary(paid, b)
    ensures var s := RunStart(paid, b - 1);
      Boundary(paid, s) && forall k :: s <= k <= b - 1 ==> RunStart(paid, k) == s && RunEnd(paid, k) == b - 1
  {
    RunIsTie(paid, b - 1);
    RunEndIs(paid, b - 1, b - 1);
    RunBetween(paid, RunStart(paid, b - 1), b - 1);
  }

  /** A mean lies between the bounds of its slots. */
  lemma MeanBounds(schedule: seq<real>, start: nat, end: nat, low: real, high: real)
    requires start <= end < |schedule|
    requires forall k :: start <= k <= end ==> low <= schedule[k] <= high
    ensures low <= Mean(schedule, start, end) <= high
  {
    var slots := schedule[start..end + 1];
    SumBounds(slots, low, high);
    QuotientBounds(Sum(slots), |slots|, low, high);
  }

  lemma QuotientBounds(total: real, n: nat, low: real, high: real)
    requires n > 0 && Times(n, low) <= total <= Times(n, high)
    ensures low <= total / n as real <= high
  {
    DivideLe(Times(n, low), total, n as real);
    DivideLe(total, Times(n, high), n as real);
    TimesOver(n, low);
    TimesOver(n, high);
  }

  ghost predicate StrictlyDecreasing(schedule: seq<real>) {
    forall i, j :: 0 <= i < j < |schedule| ==> schedule[j] < schedule[i]
  }

  lemma EarlierRun(paid: seq<Scored>, schedule: seq<real>, i: nat, j: nat)
    requires |paid| == |schedule| && Sorted(paid, Ahead) && StrictlyDecreasing(schedule)
    requires i < |paid| && j < |paid| && paid[i].1 > paid[j].1
    ensures TiedShare(paid, schedule, i) > TiedShare(paid, schedule, j)
  {
    RunIsTie(paid, i);
    RunIsTie(paid, j);
    var si, ei, sj, ej := RunStart(paid, i), RunEnd(paid, i), RunStart(paid, j), RunEnd(paid, j);
    if sj <= ei {
      ScoresFall(paid, sj, ei);
    }
    EarlierMean(schedule, si, ei, sj, ej);
  }

  lemma EarlierMean(schedule: seq<real>, si: nat, ei: nat, sj: nat, ej: nat)
    requires StrictlyDecreasing(schedule) && si <= ei < sj <= ej < |schedule|
    ensures Mean(schedule, si, ei) > Mean(schedule, sj, ej)
  {
    MeanBounds(schedule, si, ei, schedule[ei], schedule[si]);
    MeanBounds(schedule, sj, ej, schedule[ej], schedule[sj]);
  }

  /** A better score earns a strictly larger share; a tie earns exactly the same. */
  lemma SharesFollowScores(paid: seq<Scored>, schedule: seq<real>, i: nat, j: nat)
    requires |paid| == |schedule| && Sorted(paid, Ahead) && StrictlyDecreasing(schedule)
    requires i < |paid| && j < |paid|
    ensures paid[i].1 > paid[j].1 ==> TiedShare(paid, schedule, i) > TiedShare(paid, schedule, j)
    ensures paid[i].1 == paid[j].1 ==> TiedShare(paid, schedule, i) == TiedShare(paid, schedule, j)
  {
    if paid[i].1 > paid[j].1 {
      EarlierRun(paid, schedule, i, j);
    } else if paid[i].1 == paid[j].1 {
      RunIsTie(paid, i);
      RunsAreTies(paid, i, j);
      RunBetween(paid, RunStart(paid, i), RunEnd(paid, i));
    }
  }

  // ----- The allocation -----

  function DecayOf(p: AllocationParams): (d: real)
    requires ValidParams(p)
    ensures d > 0.0 && (p.paidRanks > 1 ==> d < 1.0) && (p.paidRanks == 1 ==> d == 1.0)
  {
    if p.paidRanks > 1 then
      DecayInside(p.paidRanks, p.topShare, STEPS);
      SolvedDecay(p.paidRanks, p.topShare, STEPS)
    else
      SolvedDecay(p.paidRanks, p.topShare, STEPS)
  }

  /** `ranked[:n]`. */
  function Top(ranked: seq<Scored>, n: nat): seq<Scored> {
    if |ranked| <= n then ranked else ranked[..n]
  }

  /** The eligible entries in rank order. */
  function RankedIn(scores: seq<Scored>, p: AllocationParams): seq<Scored> {
    SortBy(Eligible(scores, p.minScore), Ahead)
  }

  function Paid(scores: seq<Scored>, p: AllocationParams): seq<Scored> {
    Top(RankedIn(scores, p), p.paidRanks)
  }

  function PaidShares(scores: seq<Scored>, p: AllocationParams): seq<(string, real)>
    requires ValidParams(p)
  {
    var paid := Paid(scores, p);
    TiedShares(paid, GeometricSchedule(|paid|, DecayOf(p)))
  }

  ghost function Allocated(scores: seq<Scored>, p: AllocationParams): Result<Allocation, ScoringError>
    requires ValidParams(p)
  {
    if Eligible(scores, p.minScore) == [] then Success(Allocation(map[], [], [])) else
      match Apportioned(PaidShares(scores, p))
      case Failure(e) => Failure(e)
      case Success(ppm) =>
        Success(Allocation(ppm, GeometricSchedule(|Paid(scores, p)|, DecayOf(p)),
                           SortBy(Eligible(scores, p.minScore), Ahead)))
  }

  method Allocate(scores: seq<Scored>, p: AllocationParams)
      returns (r: Result<Allocation, ScoringError>)
    requires ValidParams(p)
    ensures r == Allocated(scores, p)
  {
    var eligible := Eligible(scores, p.minScore);
    if eligible == [] {
      return Success(Allocation(map[], [], []));
    }
    var ranked := SortBy(eligible, Ahead);
    var paid := Top(ranked, p.paidRanks);
    assert DecayOf(p) == SolvedDecay(p.paidRanks, p.topShare, STEPS);
    var decay := SolveDecay(p.paidRanks, p.topShare);
    var schedule := GeometricSchedule(|paid|, decay);
    var shares := ShareTies(paid, schedule);
    var ppm := LargestRemainderPpm(shares);
    match ppm
    case Failure(e) => return Failure(e);
    case Success(m) => return Success(Allocation(m, schedule, ranked));
  }

  ghost predicate DistinctIds(scores: seq<Scored>) {
    forall i, j :: 0 <= i < j < |scores| ==> scores[i].0 != scores[j].0
  }

  lemma {:induction false} EligibleDistinct(scores: seq<Scored>, minScore: real)
    requires DistinctIds(scores)
    ensures DistinctIds(Eligible(scores, minScore))
  {
    if scores != [] {
      var init := scores[..|scores| - 1];
      EligibleDistinct(init, minScore);
      var kept := Eligible(init, minScore);
      forall i | 0 <= i < |kept| ensures kept[i].0 != scores[|scores| - 1].0 {
        assert kept[i] in init;
      }
    }
  }

  lemma SortedDistinct(scores: seq<Scored>)
    requires DistinctIds(scores)
    ensures DistinctIds(SortBy(scores, Ahead))
  {
    var sorted := SortBy(scores, Ahead);
    forall i, j | 0 <= i < j < |sorted| ensures sorted[i].0 != sorted[j].0 {
      if sorted[i].0 == sorted[j].0 {
        var a, b := sorted[i], sorted[j];
        assert a in multiset(sorted) && b in multiset(sorted);
        assert a in scores && b in scores;
        assert a == b;
        RepeatCounts(sorted, i, j);
        TwiceInSequence(scores, a);
      }
    }
  }

  lemma RankedShape(eligible: seq<Scored>)
    requires DistinctIds(eligible)
    ensures var ranked := SortBy(eligible, Ahead);
      && DistinctIds(ranked) && Sorted(ranked, Ahead)
      && forall s :: s in ranked <==> s in eligible
  {
    var ranked := SortBy(eligible, Ahead);
    AheadOrder();
    SortBySorted(eligible, Ahead);
    SortedDistinct(eligible);
    forall s ensures s in ranked <==> s in eligible {
      assert s in ranked <==> s in multiset(ranked);
      assert s in eligible <==> s in multiset(eligible);
    }
  }

  /** The paid ranks are distinct eligible entries in rank order. */
  lemma PaidRanks(scores: seq<Scored>, p: AllocationParams)
    requires ValidParams(p) && DistinctIds(scores) && Eligible(scores, p.minScore) != []
    ensures Paid(scores, p) != [] && DistinctIds(Paid(scores, p)) && Sorted(Paid(scores, p), Ahead)
    ensures forall s :: s in Paid(scores, p) ==> s in Eligible(scores, p.minScore)
  {
    EligibleDistinct(scores, p.minScore);
    RankedShape(Eligible(scores, p.minScore));
    TopShape(SortBy(Eligible(scores, p.minScore), Ahead), p.paidRanks);
  }

  lemma TopShape(ranked: seq<Scored>, n: nat)
    requires DistinctIds(ranked) && Sorted(ranked, Ahead)
    ensures DistinctIds(Top(ranked, n)) && Sorted(Top(ranked, n), Ahead)
    ensures forall s :: s in Top(ranked, n) ==> s in ranked
  {
  }

  /** A schedule that pays every rank something, earlier ranks more, and all of the pool. */
  ghost predicate ProperSchedule(schedule: seq<real>) {
    && schedule != [] && Sum(schedule) == 1.0
    && StrictlyDecreasing(schedule)
    && forall k :: 0 <= k < |schedule| ==> schedule[k] > 0.0
  }

  lemma GeometricIsProper(n: nat, decay: real)
    requires n > 0 && decay > 0.0 && (n > 1 ==> decay < 1.0)
    ensures ProperSchedule(GeometricSchedule(n, decay))
  {
    ScheduleTotal(n, decay);
    var schedule := GeometricSchedule(n, decay);
    forall i, j | 0 <= i < j < n ensures schedule[j] < schedule[i] {
      ScheduleDecreasing(n, decay, i, j);
    }
  }

  lemma TiedSharesTotal(paid: seq<Scored>, schedule: seq<real>, shares: seq<(string, real)>)
    requires |shares| == |paid| == |schedule| && SharedSoFar(paid, schedule, shares)
    ensures SumBy(shares, ShareOf) == Sum(schedule)
  {
    TiesConserve(paid, schedule, shares, |paid|);
    assert shares[..|paid|] == shares && schedule[..|paid|] == schedule;
  }

  lemma TiedSharePositive(paid: seq<Scored>, schedule: seq<real>, i: nat)
    requires i < |paid| == |schedule| && ProperSchedule(schedule)
    ensures TiedShare(paid, schedule, i) >= 0.0
  {
    var first := RunStart(paid, i);
    MeanBounds(schedule, first, RunEnd(paid, i), 0.0, schedule[first]);
  }

  /** Tied shares of distinct entries over a proper schedule can be apportioned. */
  lemma TiedSharesProper(paid: seq<Scored>, schedule: seq<real>)
    requires |paid| == |schedule| && DistinctIds(paid) && ProperSchedule(schedule)
    ensures ProperShares(TiedShares(paid, schedule))
    ensures SumBy(TiedShares(paid, schedule), ShareOf) == 1.0
  {
    var shares := TiedShares(paid, schedule);
    TiedSharesTotal(paid, schedule, shares);
    forall s | s in shares ensures s.1 >= 0.0 {
      var i :| 0 <= i < |shares| && shares[i] == s;
      TiedSharePositive(paid, schedule, i);
    }
  }

  lemma PaidShareCount(scores: seq<Scored>, p: AllocationParams)
    requires ValidParams(p) && Eligible(scores, p.minScore) != []
    ensures 0 < |Paid(scores, p)| <= p.paidRanks
  {
  }

  /** The shares of the paid ranks are positive and add up to one. */
  lemma PaidSharesProper(scores: seq<Scored>, p: AllocationParams)
    requires ValidParams(p) && DistinctIds(scores) && Eligible(scores, p.minScore) != []
    ensures ProperShares(PaidShares(scores, p))
    ensures SumBy(PaidShares(scores, p), ShareOf) == 1.0
    ensures ProperSchedule(GeometricSchedule(|Paid(scores, p)|, DecayOf(p)))
  {
    PaidRanks(scores, p);
    PaidShareCount(scores, p);
    var paid := Paid(scores, p);
    GeometricIsProper(|paid|, DecayOf(p));
    TiedSharesProper(paid, GeometricSchedule(|paid|, DecayOf(p)));
  }

  function PpmOf(a: Allocation, id: string): int {
    if id in a.ppm then a.ppm[id] else 0
  }

  /** Apportioned proper shares as an allocation: non-negative, one entry a key, a million in all. */
  lemma ProperAllocation(shares: seq<(string, real)>)
    requires ProperShares(shares)
    ensures Apportioned(shares).Success?
    ensures var ppm := Apportioned(shares).value;
      && (forall id :: id in ppm ==> ppm[id] >= 0)
      && SumValues(ppm) == WEIGHT_PPM_TOTAL
      && ppm != map[]
  {
    ProperSharesExact(shares);
    ProperQuotas(shares);
    var ppm := Apportioned(shares).value;
    assert shares[0] in shares;
    assert shares[0].0 in ppm;
    forall id | id in ppm ensures ppm[id] >= 0 {
      var i :| 0 <= i < |shares| && shares[i].0 == id;
      ShareFloor(shares, i);
    }
  }

  /** Distinct identifiers always allocate, to a million ppm or to nothing. */
  lemma AllocatedTotal(scores: seq<Scored>, p: AllocationParams)
    requires ValidParams(p) && DistinctIds(scores)
    ensures Allocated(scores, p).Success?
    ensures var a := Allocated(scores, p).value;
      && (forall id :: PpmOf(a, id) >= 0)
      && SumValues(a.ppm) == (if a.ppm == map[] then 0 else WEIGHT_PPM_TOTAL)
      && (a.ppm == map[] <==> Eligible(scores, p.minScore) == [])
  {
    if Eligible(scores, p.minScore) != [] {
      PaidAllocation(scores, p);
    }
  }

  lemma PaidAllocation(scores: seq<Scored>, p: AllocationParams)
    requires ValidParams(p) && DistinctIds(scores) && Eligible(scores, p.minScore) != []
    ensures Allocated(scores, p).Success? && Apportioned(PaidShares(scores, p)).Success?
    ensures var ppm := Apportioned(PaidShares(scores, p)).value;
      && Allocated(scores, p).value.ppm == ppm
      && (forall id :: id in ppm ==> ppm[id] >= 0)
      && SumValues(ppm) == WEIGHT_PPM_TOTAL
      && ppm != map[]
      && ppm.Keys == set s | s in PaidShares(scores, p) :: s.0
  {
    PaidSharesProper(scores, p);
    ProperAllocation(PaidShares(scores, p));
    ProperSharesExact(PaidShares(scores, p));
  }

  /**
   * Rank fairness over every entry, paid or not: a strictly higher score never gets fewer ppm, two
   * paid entries with equal scores are within one ppm, and whoever is unpaid scored no higher than
   * anyone paid.
   */
  lemma RankFairness(scores: seq<Scored>, p: AllocationParams, a: Scored, b: Scored)
    requires ValidParams(p) && DistinctIds(scores) && a in scores && b in scores
    ensures Allocated(scores, p).Success?
    ensures var r := Allocated(scores, p).value;
      && (a.1 > b.1 ==> PpmOf(r, a.0) >= PpmOf(r, b.0))
      && (a.1 == b.1 && a.0 in r.ppm && b.0 in r.ppm ==> -1 <= r.ppm[a.0] - r.ppm[b.0] <= 1)
      && (a.0 in r.ppm && b.0 !in r.ppm ==> a.1 >= b.1)
  {
    AllocatedTotal(scores, p);
    if Eligible(scores, p.minScore) != [] {
      var r := Allocated(scores, p).value;
      var paid, shares := Paid(scores, p), PaidShares(scores, p);
      PaidRanks(scores, p);
      PaidSharesProper(scores, p);
      PaidHolds(scores, p, a);
      PaidHolds(scores, p, b);
      if b.0 in r.ppm {
        var j := PaidPosition(scores, p, b);
        if a.0 in r.ppm {
          var i := PaidPosition(scores, p, a);
          SharesFollowScores(paid, GeometricSchedule(|paid|, DecayOf(p)), i, j);
          if shares[i].1 >= shares[j].1 { ShareMonotone(shares, i, j); }
        } else if a.1 > b.1 {
          UnpaidBelow(scores, p, j, a);
        }
      } else if a.0 in r.ppm && a.1 < b.1 {
        var i := PaidPosition(scores, p, a);
        UnpaidBelow(scores, p, i, b);
      }
    }
  }

  /** The quotas that exact arithmetic gives the paid ranks. */
  function PaidQuotas(scores: seq<Scored>, p: AllocationParams): seq<Entry>
    requires ValidParams(p)
  {
    Quotas(PaidShares(scores, p), 1.0)
  }

  lemma PaidQuotasExact(scores: seq<Scored>, p: AllocationParams, i: nat)
    requires ValidParams(p) && DistinctIds(scores) && Eligible(scores, p.minScore) != []
    requires i < |Paid(scores, p)|
    ensures ExactQuotas(PaidQuotas(scores, p)) && |PaidQuotas(scores, p)| == |Paid(scores, p)|
    ensures PaidQuotas(scores, p)[i].quota == PaidShares(scores, p)[i].1 * WEIGHT_PPM_TOTAL as real
  {
    PaidSharesProper(scores, p);
    ProperQuotas(PaidShares(scores, p));
  }

  /** How far the tied share at `i` leads the one at `j`, in ppm. */
  function Lead(scores: seq<Scored>, p: AllocationParams, i: nat, j: nat): real
    requires ValidParams(p) && i < |Paid(scores, p)| && j < |Paid(scores, p)|
  {
    (PaidShares(scores, p)[i].1 - PaidShares(scores, p)[j].1) * WEIGHT_PPM_TOTAL as real
  }

  /**
   * Rank fairness under computed quotas: a better score leads by some share, and gets no fewer ppm once
   * that is more than twice `delta` ppm; equal scores get ppm less than two and twice `delta` apart.
   */
  lemma RankFairnessUnderRounding(
      scores: seq<Scored>, p: AllocationParams, computed: seq<Entry>, delta: real, i: nat, j: nat)
    requires ValidParams(p) && DistinctIds(scores) && Eligible(scores, p.minScore) != []
    requires i < |Paid(scores, p)| && j < |Paid(scores, p)|
    requires RoundingOf(PaidQuotas(scores, p), computed, delta) && Times(|Paid(scores, p)|, delta) < 1.0
    ensures var ppm, k, l := Rounded(computed), computed[i].key, computed[j].key;
      && k in ppm && l in ppm
      && (Paid(scores, p)[i].1 > Paid(scores, p)[j].1 ==> Lead(scores, p, i, j) > 0.0)
      && (Lead(scores, p, i, j) > 2.0 * delta ==> ppm[k] >= ppm[l])
      && (Paid(scores, p)[i].1 == Paid(scores, p)[j].1 ==>
            -2.0 - 2.0 * delta < (ppm[k] - ppm[l]) as real < 2.0 + 2.0 * delta)
  {
    var exact, paid := PaidQuotas(scores, p), Paid(scores, p);
    PaidQuotasExact(scores, p, i);
    PaidQuotasExact(scores, p, j);
    PaidRanks(scores, p);
    PaidSharesProper(scores, p);
    SharesFollowScores(paid, GeometricSchedule(|paid|, DecayOf(p)), i, j);
    FairUnderRounding(exact, computed, delta, i, j);
    FairUnderRounding(exact, computed, delta, j, i);
    LeadIs(PaidShares(scores, p)[i].1, PaidShares(scores, p)[j].1);
  }

  lemma LeadIs(a: real, b: real)
    ensures (a - b) * WEIGHT_PPM_TOTAL as real == a * WEIGHT_PPM_TOTAL as real - b * WEIGHT_PPM_TOTAL as real
    ensures a > b ==> (a - b) * WEIGHT_PPM_TOTAL as real > 0.0
  {
  }

  /** An entry holding ppm sits at a paid rank. */
  lemma PaidPosition(scores: seq<Scored>, p: AllocationParams, a: Scored) returns (i: nat)
    requires ValidParams(p) && DistinctIds(scores) && a in scores
    requires Eligible(scores, p.minScore) != [] && Allocated(scores, p).Success?
    requires a.0 in Allocated(scores, p).value.ppm
    ensures i < |Paid(scores, p)| && Paid(scores, p)[i] == a
  {
    PaidKeys(scores, p, a.0);
    PaidRanks(scores, p);
    var paid := Paid(scores, p);
    i :| 0 <= i < |paid| && paid[i].0 == a.0;
    assert paid[i] in scores;
    SameId(scores, paid[i], a);
  }

  /** The identifiers with ppm are those of the paid ranks. */
  lemma PaidKeys(scores: seq<Scored>, p: AllocationParams, id: string)
    requires ValidParams(p) && DistinctIds(scores) && Eligible(scores, p.minScore) != []
    ensures Allocated(scores, p).Success?
    ensures id in Allocated(scores, p).value.ppm
      <==> exists k :: 0 <= k < |Paid(scores, p)| && Paid(scores, p)[k].0 == id
  {
    PaidAllocation(scores, p);
    IdOfShare(Paid(scores, p), PaidShares(scores, p), id);
  }

  lemma IdOfShare(paid: seq<Scored>, shares: seq<(string, real)>, id: string)
    requires |shares| == |paid| && forall k :: 0 <= k < |paid| ==> shares[k].0 == paid[k].0
    ensures id in (set s | s in shares :: s.0) <==> exists k :: 0 <= k < |paid| && paid[k].0 == id
  {
    if k :| 0 <= k < |paid| && paid[k].0 == id {
      assert shares[k] in shares;
    }
  }

  lemma SameId(scores: seq<Scored>, a: Scored, b: Scored)
    requires DistinctIds(scores) && a in scores && b in scores && a.0 == b.0
    ensures a == b
  {
  }

  /** Someone without a paid rank scored no higher than someone with one. */
  lemma UnpaidBelow(scores: seq<Scored>, p: AllocationParams, j: nat, a: Scored)
    requires ValidParams(p) && DistinctIds(scores) && a in scores
    requires Eligible(scores, p.minScore) != [] && j < |Paid(scores, p)|
    requires a !in Paid(scores, p)
    ensures a.1 <= Paid(scores, p)[j].1
  {
    var eligible := Eligible(scores, p.minScore);
    EligibleDistinct(scores, p.minScore);
    RankedShape(eligible);
    var ranked := SortBy(eligible, Ahead);
    assert ranked[j] in eligible;
    if a.1 > p.minScore {
      assert a in ranked;
      BelowTheCut(ranked, |Paid(scores, p)|, j, a);
    }
  }

  lemma BelowTheCut(ranked: seq<Scored>, cut: nat, j: nat, a: Scored)
    requires Sorted(ranked, Ahead) && j < cut <= |ranked| && a in ranked && a !in ranked[..cut]
    ensures a.1 <= ranked[j].1
  {
    var i :| 0 <= i < |ranked| && ranked[i] == a;
    forall k | 0 <= k < cut ensures ranked[k] in ranked[..cut] {
      assert ranked[..cut][k] == ranked[k];
    }
    ScoresFall(ranked, j, i);
  }

  lemma PaidHolds(scores: seq<Scored>, p: AllocationParams, a: Scored)
    requires ValidParams(p) && DistinctIds(scores) && a in scores
    requires Eligible(scores, p.minScore) != [] && Allocated(scores, p).Success?
    ensures a in Paid(scores, p) ==> a.0 in Allocated(scores, p).value.ppm
  {
    PaidKeys(scores, p, a.0);
    if a in Paid(scores, p) {
      var i :| 0 <= i < |Paid(scores, p)| && Paid(scores, p)[i] == a;
    }
  }

  // ----- Who is paid, and what happens to a tie across the last paid rank -----

  function StrictlyAhead(a: Scored): Scored -> bool { (b: Scored) => b != a && Ahead(b, a) }

  function Above(score: real): Scored -> bool { (b: Scored) => b.1 > score }

  function AtLeast(score: real): Scored -> bool { (b: Scored) => b.1 >= score }

  /** Entries with the same score and an earlier identifier. */
  function TiedBefore(a: Scored): Scored -> bool { (b: Scored) => b != a && b.1 == a.1 && LexLe(b.0, a.0) }

  lemma {:induction false} CountEligible(scores: seq<Scored>, minScore: real, f: Scored -> bool)
    requires forall b :: f(b) ==> b.1 > minScore
    ensures CountBy(Eligible(scores, minScore), f) == CountBy(scores, f)
  {
    if scores != [] {
      var kept, last := Eligible(scores[..|scores| - 1], minScore), scores[|scores| - 1];
      CountEligible(scores[..|scores| - 1], minScore, f);
      assert f(last) ==> last.1 > minScore;
      assert (kept + [last])[..|kept|] == kept && kept + [] == kept;
    }
  }

  lemma AheadIndex(ranked: seq<Scored>, i: nat)
    requires Sorted(ranked, Ahead) && DistinctIds(ranked) && i < |ranked|
    ensures CountBy(ranked, StrictlyAhead(ranked[i])) == i
  {
    var f := StrictlyAhead(ranked[i]);
    AheadOrder();
    forall k | 0 <= k < |ranked| ensures f(ranked[k]) <==> k < i {
      if k < i {
        assert Ahead(ranked[k], ranked[i]);
      } else if i < k {
        assert Ahead(ranked[i], ranked[k]);
      }
    }
    CountUpTo(ranked, i, f);
  }

  lemma {:induction false} ScoreIndex(ranked: seq<Scored>, k: nat, score: real)
    requires Sorted(ranked, Ahead) && k < |ranked|
    ensures ranked[k].1 > score <==> k < CountBy(ranked, Above(score))
    ensures ranked[k].1 >= score <==> k < CountBy(ranked, AtLeast(score))
  {
    var n := |ranked| - 1;
    if k < n {
      ScoreIndex(ranked[..n], k, score);
      ScoresFall(ranked, k, n);
    } else {
      forall j | 0 <= j < n ensures ranked[j].1 >= ranked[n].1 {
        ScoresFall(ranked, j, n);
      }
      if ranked[n].1 > score {
        CountAll(ranked, Above(score));
      }
      if ranked[n].1 >= score {
        CountAll(ranked, AtLeast(score));
      }
    }
  }

  /** The eligible entries in rank order, with how many of all entries have a property. */
  lemma RankCounts(scores: seq<Scored>, minScore: real, f: Scored -> bool)
    requires forall b :: f(b) ==> b.1 > minScore
    ensures CountBy(SortBy(Eligible(scores, minScore), Ahead), f) == CountBy(scores, f)
  {
    CountEligible(scores, minScore, f);
    CountByPermutation(SortBy(Eligible(scores, minScore), Ahead), Eligible(scores, minScore), f);
  }

  lemma RankedInShape(scores: seq<Scored>, p: AllocationParams)
    requires DistinctIds(scores)
    ensures Sorted(RankedIn(scores, p), Ahead) && DistinctIds(RankedIn(scores, p))
    ensures forall s :: s in RankedIn(scores, p) <==> s in scores && s.1 > p.minScore
  {
    EligibleDistinct(scores, p.minScore);
    RankedShape(Eligible(scores, p.minScore));
  }

  lemma OnlyTheTop(ranked: seq<Scored>, n: nat, i: nat)
    requires DistinctIds(ranked) && i < |ranked|
    ensures i < n <==> exists k :: 0 <= k < |Top(ranked, n)| && Top(ranked, n)[k].0 == ranked[i].0
  {
    if i < n {
      assert Top(ranked, n)[i].0 == ranked[i].0;
    }
  }

  /** The rank of an eligible entry decides whether it is paid. */
  lemma PaidByRank(scores: seq<Scored>, p: AllocationParams, i: nat)
    requires ValidParams(p) && DistinctIds(scores) && i < |RankedIn(scores, p)|
    ensures Allocated(scores, p).Success?
    ensures RankedIn(scores, p)[i].0 in Allocated(scores, p).value.ppm <==> i < p.paidRanks
  {
    RankedInShape(scores, p);
    PaidKeys(scores, p, RankedIn(scores, p)[i].0);
    OnlyTheTop(RankedIn(scores, p), p.paidRanks, i);
  }

  lemma RankOf(scores: seq<Scored>, p: AllocationParams, a: Scored) returns (i: nat)
    requires ValidParams(p) && DistinctIds(scores) && a in scores && a.1 > p.minScore
    ensures i < |RankedIn(scores, p)| && RankedIn(scores, p)[i] == a
    ensures Allocated(scores, p).Success?
    ensures a.0 in Allocated(scores, p).value.ppm <==> i < p.paidRanks
  {
    RankedInShape(scores, p);
    assert a in RankedIn(scores, p);
    i :| 0 <= i < |RankedIn(scores, p)| && RankedIn(scores, p)[i] == a;
    PaidByRank(scores, p, i);
  }

  lemma PaidIsEligible(scores: seq<Scored>, p: AllocationParams, i: nat)
    requires ValidParams(p) && DistinctIds(scores) && i < |Paid(scores, p)|
    ensures Paid(scores, p)[i].1 > p.minScore
  {
    RankedInShape(scores, p);
    assert RankedIn(scores, p)[i] in RankedIn(scores, p);
  }

  lemma IneligibleUnpaid(scores: seq<Scored>, p: AllocationParams, a: Scored)
    requires ValidParams(p) && DistinctIds(scores) && a in scores && a.1 <= p.minScore
    ensures Allocated(scores, p).Success? && a.0 !in Allocated(scores, p).value.ppm
  {
    AllocatedTotal(scores, p);
    if Eligible(scores, p.minScore) != [] && a.0 in Allocated(scores, p).value.ppm {
      var i := PaidPosition(scores, p, a);
      PaidIsEligible(scores, p, i);
    }
  }

  lemma EligiblePaid(scores: seq<Scored>, p: AllocationParams, a: Scored)
    requires ValidParams(p) && DistinctIds(scores) && a in scores && a.1 > p.minScore
    ensures Allocated(scores, p).Success?
    ensures a.0 in Allocated(scores, p).value.ppm <==> CountBy(scores, StrictlyAhead(a)) < p.paidRanks
  {
    var i := RankOf(scores, p, a);
    AheadOf(scores, p, i);
  }

  lemma AheadOf(scores: seq<Scored>, p: AllocationParams, i: nat)
    requires DistinctIds(scores) && i < |RankedIn(scores, p)|
    ensures CountBy(scores, StrictlyAhead(RankedIn(scores, p)[i])) == i
  {
    RankedInShape(scores, p);
    assert RankedIn(scores, p)[i] in RankedIn(scores, p);
    AheadIndex(RankedIn(scores, p), i);
    RankCounts(scores, p.minScore, StrictlyAhead(RankedIn(scores, p)[i]));
  }

  /** Paid is exactly who is eligible and has fewer than `paidRanks` entries ahead. */
  lemma PaidExactly(scores: seq<Scored>, p: AllocationParams, a: Scored)
    requires ValidParams(p) && DistinctIds(scores) && a in scores
    ensures Allocated(scores, p).Success?
    ensures a.0 in Allocated(scores, p).value.ppm
      <==> a.1 > p.minScore && CountBy(scores, StrictlyAhead(a)) < p.paidRanks
  {
    if a.1 > p.minScore {
      EligiblePaid(scores, p, a);
    } else {
      IneligibleUnpaid(scores, p, a);
    }
  }

  lemma {:induction false} AheadSplits(scores: seq<Scored>, a: Scored)
    ensures CountBy(scores, StrictlyAhead(a)) == CountBy(scores, Above(a.1)) + CountBy(scores, TiedBefore(a))
  {
    if scores != [] {
      AheadSplits(scores[..|scores| - 1], a);
    }
  }

  /** Of a tie the identifiers that come first are paid, as many as ranks are left for the tie. */
  lemma TieInIdentifierOrder(scores: seq<Scored>, p: AllocationParams, a: Scored)
    requires ValidParams(p) && DistinctIds(scores) && a in scores && a.1 > p.minScore
    ensures Allocated(scores, p).Success?
    ensures a.0 in Allocated(scores, p).value.ppm
      <==> CountBy(scores, TiedBefore(a)) < p.paidRanks - CountBy(scores, Above(a.1))
  {
    PaidExactly(scores, p, a);
    AheadSplits(scores, a);
  }

  ghost predicate AllHold(scores: seq<Scored>, score: real, ppm: map<string, int>) {
    forall a :: a in scores && a.1 == score ==> a.0 in ppm
  }

  ghost predicate NoneHold(scores: seq<Scored>, score: real, ppm: map<string, int>) {
    forall a :: a in scores && a.1 == score ==> a.0 !in ppm
  }

  /**
   * docs/scoring.md line 102 says that no identifier decides who gets money. Exactly: the entries of
   * one score are all paid or all unpaid when, and only when, the last paid rank does not part them.
   */
  lemma TieAtTheCut(scores: seq<Scored>, p: AllocationParams, score: real)
    requires ValidParams(p) && DistinctIds(scores) && score > p.minScore
    ensures Allocated(scores, p).Success?
    ensures AllHold(scores, score, Allocated(scores, p).value.ppm)
         || NoneHold(scores, score, Allocated(scores, p).value.ppm)
      <==> CountBy(scores, Above(score)) >= p.paidRanks || CountBy(scores, AtLeast(score)) <= p.paidRanks
  {
    AllocatedTotal(scores, p);
    RankedInShape(scores, p);
    var ppm := Allocated(scores, p).value.ppm;
    var above, least := CountBy(scores, Above(score)), CountBy(scores, AtLeast(score));
    RankCounts(scores, p.minScore, Above(score));
    RankCounts(scores, p.minScore, AtLeast(score));
    if above >= p.paidRanks || least <= p.paidRanks {
      forall a | a in scores && a.1 == score ensures a.0 in ppm <==> above < p.paidRanks {
        var i := RankOf(scores, p, a);
        ScoreIndex(RankedIn(scores, p), i, score);
      }
    } else {
      TiedHolds(scores, p, score, above);
      TiedHolds(scores, p, score, least - 1);
    }
  }

  /** At each rank between those scoring higher and those scoring lower is an entry of the tie. */
  lemma TiedHolds(scores: seq<Scored>, p: AllocationParams, score: real, i: nat)
    requires ValidParams(p) && DistinctIds(scores) && score > p.minScore
    requires CountBy(scores, Above(score)) <= i < CountBy(scores, AtLeast(score))
    ensures Allocated(scores, p).Success?
    ensures i < p.paidRanks ==> !NoneHold(scores, score, Allocated(scores, p).value.ppm)
    ensures i >= p.paidRanks ==> !AllHold(scores, score, Allocated(scores, p).value.ppm)
  {
    var ranked := RankedIn(scores, p);
    RankedInShape(scores, p);
    RankCounts(scores, p.minScore, Above(score));
    RankCounts(scores, p.minScore, AtLeast(score));
    ScoreIndex(ranked, i, score);
    PaidByRank(scores, p, i);
    assert ranked[i] in scores && ranked[i].1 == score;
  }

  /** It does happen: two entries with one score, one paid rank, and the identifier decides. */
  lemma IdentifierDecides(score: real, minScore: real)
    requires score > minScore
    ensures var scores, p := [("a", score), ("b", score)], AllocationParams(1, 1.0, minScore);
      && ValidParams(p) && Allocated(scores, p).Success?
      && "a" in Allocated(scores, p).value.ppm && "b" !in Allocated(scores, p).value.ppm
  {
    PairDecides("a", "b", score, AllocationParams(1, 1.0, minScore));
  }

  lemma PairDecides(x: string, y: string, score: real, p: AllocationParams)
    requires ValidParams(p) && p.paidRanks == 1 && score > p.minScore && x != y && LexLe(x, y)
    ensures var scores := [(x, score), (y, score)];
      Allocated(scores, p).Success? && x in Allocated(scores, p).value.ppm && y !in Allocated(scores, p).value.ppm
  {
    var a, b := (x, score), (y, score);
    LexOrder();
    PairCount(a, b, StrictlyAhead(a));
    PairCount(a, b, StrictlyAhead(b));
    PaidExactly([a, b], p, a);
    PaidExactly([a, b], p, b);
  }

  lemma PairCount(a: Scored, b: Scored, f: Scored -> bool)
    ensures CountBy([a, b], f) == (if f(a) then 1 else 0) + (if f(b) then 1 else 0)
  {
    assert [a, b][..1] == [a] && [a][..0] == [];
    assert CountBy([a], f) == if f(a) then 1 else 0;
  }

  lemma {:induction false} EligiblePermuted(a: seq<Scored>, b: seq<Scored>, minScore: real)
    requires multiset(a) == multiset(b)
    ensures multiset(Eligible(a, minScore)) == multiset(Eligible(b, minScore))
    decreases |a|
  {
    if a == [] {
      assert |multiset(b)| == 0;
    } else {
      var i := SplitAt(a, b);
      EligiblePermuted(a[..|a| - 1], b[..i] + b[i + 1..], minScore);
      EligibleAppend(b[..i], b[i + 1..], minScore);
      EligibleAppend(b[..i] + [b[i]], b[i + 1..], minScore);
      EligibleAppend(b[..i], [b[i]], minScore);
      assert [b[i]][..0] == [];
    }
  }

  lemma {:induction false} EligibleAppend(s: seq<Scored>, t: seq<Scored>, minScore: real)
    ensures Eligible(s + t, minScore) == Eligible(s, minScore) + Eligible(t, minScore)
  {
    if t == [] {
      assert s + t == s;
    } else {
      assert (s + t)[..|s + t| - 1] == s + t[..|t| - 1];
      EligibleAppend(s, t[..|t| - 1], minScore);
    }
  }

  /** The allocation does not depend on the order in which scores arrive. */
  lemma AllocatedOrderIndependent(a: seq<Scored>, b: seq<Scored>, p: AllocationParams)
    requires ValidParams(p) && multiset(a) == multiset(b)
    ensures Allocated(a, p) == Allocated(b, p)
  {
    var ea, eb := Eligible(a, p.minScore), Eligible(b, p.minScore);
    EligiblePermuted(a, b, p.minScore);
    assert |multiset(ea)| == |ea| && |multiset(eb)| == |eb|;
    AheadOrder();
    SortByPermutation(ea, eb, Ahead);
    assert Paid(a, p) == Paid(b, p);
    assert PaidShares(a, p) == PaidShares(b, p);
  }
}
