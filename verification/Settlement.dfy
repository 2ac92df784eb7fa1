/** src/enclave/validator/round.py: from the records of a round to the weights they earn. */
module Settlement {
  import opened Apportionment
  import opened Publication
  import opened Ranking
  import opened Records
  import opened Sorting
  import opened Strings
  import opened Sums
  import opened Wrappers
  import opened YieldScore

  /** A record as the ledger files it. */
  datatype Filed = Filed(submissionId: string, record: InstanceRecord)

  function ForSubmission(records: seq<Filed>, id: string): seq<InstanceRecord> {
    if records == [] then [] else
      var last := records[|records| - 1];
      ForSubmission(records[..|records| - 1], id) + if last.submissionId == id then [last.record] else []
  }

  function IdOf(f: Filed): string { f.submissionId }

  /** Every submission with a record, ascending. */
  function Submissions(records: seq<Filed>): seq<string> { SortedSet(Map(records, IdOf)) }

  function ScoreOf(records: seq<Filed>, p: YieldScore.ScoringParams, id: string): RoundScore {
    ScoreRound(id, ForSubmission(records, id), p)
  }

  function Scorer(records: seq<Filed>, p: YieldScore.ScoringParams): string -> RoundScore {
    (id: string) => ScoreOf(records, p, id)
  }

  /** The passing entries among `ids`, with their yields. */
  function Passing(score: string -> RoundScore, ids: seq<string>): seq<Scored> {
    if ids == [] then [] else
      var id := ids[|ids| - 1];
      Passing(score, ids[..|ids| - 1]) + if score(id).verdict == PASS then [(id, score(id).yieldScore)] else []
  }

  function Ranked(records: seq<Filed>, p: YieldScore.ScoringParams): seq<Scored> {
    Passing(Scorer(records, p), Submissions(records))
  }

  /** `allocate_weights(score_submissions(...))`. */
  ghost function Settled(records: seq<Filed>, p: YieldScore.ScoringParams, a: AllocationParams):
    Result<Allocation, ScoringError>
    requires Ranking.ValidParams(a)
  {
    Allocated(Ranked(records, p), a)
  }

  /** `submissions` when any are given, otherwise every submission with a record. */
  function Chosen(records: seq<Filed>, submissions: seq<string>): seq<string> {
    if submissions == [] then Submissions(records) else SortedSet(submissions)
  }

  /** The chosen submissions, ascending, each scored from its own records. */
  function Scores(records: seq<Filed>, p: YieldScore.ScoringParams, submissions: seq<string>): seq<RoundScore> {
    Map(Chosen(records, submissions), Scorer(records, p))
  }

  method ScoreSubmissions(records: seq<Filed>, p: YieldScore.ScoringParams, submissions: seq<string>)
      returns (scores: seq<RoundScore>)
    ensures scores == Scores(records, p, submissions)
  {
    var ids, score := Chosen(records, submissions), Scorer(records, p);
    scores := [];
    for i := 0 to |ids|
      invariant scores == Map(ids[..i], score)
    {
      scores := scores + [score(ids[i])];
    }
    assert ids[..|ids|] == ids;
  }

  method Settle(records: seq<Filed>, p: YieldScore.ScoringParams, a: AllocationParams)
      returns (r: Result<Allocation, ScoringError>)
    requires Ranking.ValidParams(a)
    ensures r == Settled(records, p, a)
  {
    var scores := ScoreSubmissions(records, p, []);
    var ranked := RankPassing(records, p, scores);
    r := Allocate(ranked, a);
  }

  /** The passing submissions with their yields, in order. */
  method RankPassing(records: seq<Filed>, ghost p: YieldScore.ScoringParams, scores: seq<RoundScore>)
      returns (ranked: seq<Scored>)
    requires scores == Scores(records, p, [])
    ensures ranked == Ranked(records, p)
  {
    ranked := [];
    var ids := Submissions(records);
    for i := 0 to |ids|
      invariant ranked == Passing(Scorer(records, p), ids[..i])
    {
      assert ids[..i + 1][..i] == ids[..i];
      if scores[i].verdict == PASS {
        ranked := ranked + [(ids[i], scores[i].yieldScore)];
      }
    }
    assert ids[..|ids|] == ids;
  }

  // ----- Who is ranked -----

  lemma {:induction false} PassingExactly(score: string -> RoundScore, ids: seq<string>, s: Scored)
    ensures s in Passing(score, ids)
      <==> s.0 in ids && score(s.0).verdict == PASS && s.1 == score(s.0).yieldScore
  {
    if ids != [] {
      var n := |ids| - 1;
      PassingExactly(score, ids[..n], s);
      assert ids == ids[..n] + [ids[n]];
    }
  }

  /** Ranked are the submissions that passed, each with the yield of its records. */
  lemma RankedExactly(records: seq<Filed>, p: YieldScore.ScoringParams, s: Scored)
    ensures s in Ranked(records, p)
      <==> && s.0 in Submissions(records) && ScoreOf(records, p, s.0).verdict == PASS
           && s.1 == ScoreOf(records, p, s.0).yieldScore
  {
    PassingExactly(Scorer(records, p), Submissions(records), s);
  }

  /** A submission's own records are those filed under it, each as often as it was filed. */
  lemma {:induction false} OwnRecords(records: seq<Filed>, id: string, r: InstanceRecord)
    ensures multiset(ForSubmission(records, id))[r] == multiset(records)[Filed(id, r)]
  {
    if records != [] {
      var n := |records| - 1;
      OwnRecords(records[..n], id, r);
      assert records == records[..n] + [records[n]];
    }
  }

  /** Submissions are the identifiers that something was filed under, ascending, each once. */
  lemma {:induction false} SubmissionsExactly(records: seq<Filed>)
    ensures Ascending(Submissions(records))
    ensures forall id :: id in Submissions(records) <==> exists f :: f in records && f.submissionId == id
  {
    SortedSetIs(Map(records, IdOf));
    forall id ensures id in Submissions(records) <==> exists f :: f in records && f.submissionId == id {
      if id in Submissions(records) {
        var i :| 0 <= i < |records| && Map(records, IdOf)[i] == id;
        assert records[i] in records;
      }
      if f :| f in records && f.submissionId == id {
        var i :| 0 <= i < |records| && records[i] == f;
        assert Map(records, IdOf)[i] == id;
      }
    }
  }

  /**
   * The scores: one for each submission named, or for each with a record when none is named, ascending,
   * and each folded from that submission's own records.
   */
  lemma {:induction false} ScoredExactly(records: seq<Filed>, p: YieldScore.ScoringParams, submissions: seq<string>)
      returns (ids: seq<string>)
    ensures Ascending(ids) && |Scores(records, p, submissions)| == |ids|
    ensures forall id :: id in ids <==>
      if submissions != [] then id in submissions else exists f :: f in records && f.submissionId == id
    ensures forall i :: 0 <= i < |ids| ==>
      Scores(records, p, submissions)[i] == ScoreRound(ids[i], ForSubmission(records, ids[i]), p)
  {
    ids := Chosen(records, submissions);
    SortedSetIs(submissions);
    SubmissionsExactly(records);
  }

  lemma {:induction false} PassingDistinct(score: string -> RoundScore, ids: seq<string>)
    requires Distinct(ids)
    ensures DistinctIds(Passing(score, ids))
  {
    if ids != [] {
      var n := |ids| - 1;
      PassingDistinct(score, ids[..n]);
      var before := Passing(score, ids[..n]);
      forall i | 0 <= i < |before| ensures before[i].0 != ids[n] {
        PassingExactly(score, ids[..n], before[i]);
      }
    }
  }

  lemma RankedDistinct(records: seq<Filed>, p: YieldScore.ScoringParams)
    ensures DistinctIds(Ranked(records, p))
  {
    SortedSetIs(Map(records, IdOf));
    PassingDistinct(Scorer(records, p), Submissions(records));
  }

  /** Settling never fails, and pays out a million ppm or nothing. */
  lemma SettledTotal(records: seq<Filed>, p: YieldScore.ScoringParams, a: AllocationParams)
    requires Ranking.ValidParams(a)
    ensures Settled(records, p, a).Success?
    ensures var ppm := Settled(records, p, a).value.ppm;
      SumValues(ppm) == if ppm == map[] then 0 else WEIGHT_PPM_TOTAL
  {
    RankedDistinct(records, p);
    AllocatedTotal(Ranked(records, p), a);
  }

  /** A submission that did not pass earns nothing, whatever its yield. */
  lemma VoidEarnsNothing(records: seq<Filed>, p: YieldScore.ScoringParams, a: AllocationParams, id: string)
    requires Ranking.ValidParams(a) && ScoreOf(records, p, id).verdict != PASS
    ensures Settled(records, p, a).Success? && id !in Settled(records, p, a).value.ppm
  {
    SettledTotal(records, p, a);
    RankedDistinct(records, p);
    var scores := Ranked(records, p);
    if Eligible(scores, a.minScore) != [] && id in Settled(records, p, a).value.ppm {
      PaidKeys(scores, a, id);
      PaidRanks(scores, a);
      var k :| 0 <= k < |Paid(scores, a)| && Paid(scores, a)[k].0 == id;
      RankedExactly(records, p, Paid(scores, a)[k]);
    }
  }

  lemma {:induction false} FiledIsScored(records: seq<Filed>, f: Filed)
    requires f in records
    ensures f.record in ForSubmission(records, f.submissionId)
  {
    var n := |records| - 1;
    if f != records[n] {
      assert records == records[..n] + [records[n]];
      FiledIsScored(records[..n], f);
    }
  }

  /** One failed audit among a submission's scoreable records, and it earns nothing for the round. */
  lemma FailedAuditEarnsNothing(
      records: seq<Filed>, p: YieldScore.ScoringParams, a: AllocationParams, id: string, r: InstanceRecord)
    requires Ranking.ValidParams(a) && Filed(id, r) in records && r.Scoreable() && r.FailedAudit()
    ensures Settled(records, p, a).Success? && id !in Settled(records, p, a).value.ppm
  {
    FiledIsScored(records, Filed(id, r));
    assert r in Scoreable(ForSubmission(records, id));
    VoidEarnsNothing(records, p, a, id);
  }

  /**
   * Weights follow yields: of two passing submissions the one with the higher yield gets no fewer
   * ppm, equal yields that are both paid get the same up to one ppm, and nobody unpaid has a higher
   * yield than anybody paid.
   */
  lemma WeightsFollowYields(
      records: seq<Filed>, p: YieldScore.ScoringParams, a: AllocationParams, x: string, y: string)
    requires Ranking.ValidParams(a) && x in Submissions(records) && y in Submissions(records)
    requires ScoreOf(records, p, x).verdict == PASS && ScoreOf(records, p, y).verdict == PASS
    ensures Settled(records, p, a).Success?
    ensures var r := Settled(records, p, a).value;
      var u, v := ScoreOf(records, p, x).yieldScore, ScoreOf(records, p, y).yieldScore;
      && (u > v ==> PpmOf(r, x) >= PpmOf(r, y))
      && (u == v && x in r.ppm && y in r.ppm ==> -1 <= r.ppm[x] - r.ppm[y] <= 1)
      && (x in r.ppm && y !in r.ppm ==> u >= v)
  {
    RankedDistinct(records, p);
    var scores := Ranked(records, p);
    var s, t := (x, ScoreOf(records, p, x).yieldScore), (y, ScoreOf(records, p, y).yieldScore);
    RankedExactly(records, p, s);
    RankedExactly(records, p, t);
    RankFairness(scores, a, s, t);
  }

  // ----- From records to the chain -----

  /** A settled round is an allocation that can be reserved from and placed. */
  lemma SettledProper(records: seq<Filed>, p: YieldScore.ScoringParams, a: AllocationParams)
    requires Ranking.ValidParams(a)
    ensures Settled(records, p, a).Success? && ProperPpm(Settled(records, p, a).value.ppm)
  {
    SettledTotal(records, p, a);
    RankedDistinct(records, p);
    AllocatedTotal(Ranked(records, p), a);
    var r := Settled(records, p, a).value;
    forall id | id in r.ppm ensures r.ppm[id] >= 0 {
      assert PpmOf(r, id) >= 0;
    }
  }

  /**
   * From any records to the chain: once the floor of the reserved share is one ppm, a round with its
   * reserved hotkey in range settles, reserves and places without error, and the vector is one the
   * chain accepts, in which the hotkey holds at least that floor. Below one ppm the placement may
   * fail, but what it yields still has the rest.
   */
  lemma RoundPublishes(
      records: seq<Filed>, p: YieldScore.ScoringParams, a: AllocationParams,
      hotkey: string, share: real, uidOf: map<string, int>, nUids: nat)
    requires Ranking.ValidParams(a) && hotkey != "" && 0.0 < share <= 1.0 && InRange(uidOf, nUids, hotkey)
    ensures Settled(records, p, a).Success? && Reserved(Settled(records, p, a).value, hotkey, share).Success?
    ensures var reserved := Reserved(Settled(records, p, a).value, hotkey, share).value.ppm;
      var placed := AsUid(reserved, uidOf, nUids);
      && ProperPpm(reserved)
      && ((share * TOTAL).Floor >= 1 ==> placed.Success?)
      && (placed.Success? ==>
            && placed.value[uidOf[hotkey]] >= (share * TOTAL).Floor
            && Positive(placed.value) != []
            && ValidateWeights(Positive(placed.value), WeightsAt(placed.value, Positive(placed.value))).Success?)
  {
    SettledProper(records, p, a);
    var earned := Settled(records, p, a).value;
    ReservedFloor(earned, hotkey, share);
    ReservedNeverDiluted(earned, hotkey, share, uidOf, nUids);
    var reserved := Reserved(earned, hotkey, share).value.ppm;
    if AsUid(reserved, uidOf, nUids).Success? {
      AsUidTotal(reserved, uidOf, nUids);
      assert hotkey in PlacedShares(reserved, uidOf, nUids);
      PublishedValid(AsUid(reserved, uidOf, nUids).value);
    }
  }

  ghost predicate WeightAtLeast(uids: seq<int>, weights: seq<int>, uid: int, low: int) {
    exists i :: 0 <= i < |uids| == |weights| && uids[i] == uid && weights[i] >= low
  }

  /** One pass of the weight loop over a settled round with a reserved share: exactly one vector goes out. */
  method PublishRound(
      chain: OfflineChain, records: seq<Filed>, p: YieldScore.ScoringParams, a: AllocationParams,
      hotkey: string, share: real, neurons: seq<Neuron>)
      returns (r: Result<(seq<int>, seq<int>), PublishError>)
    requires Ranking.ValidParams(a) && hotkey != "" && 0.0 < share <= 1.0
    requires InRange(UidsOf(neurons), |neurons|, hotkey) && (share * TOTAL).Floor >= 1
    modifies chain
    ensures r.Success? && chain.published == old(chain.published) + [r.value]
    ensures ValidateWeights(r.value.0, r.value.1).Success?
    ensures WeightAtLeast(r.value.0, r.value.1, UidsOf(neurons)[hotkey], (share * TOTAL).Floor)
  {
    RoundPublishes(records, p, a, hotkey, share, UidsOf(neurons), |neurons|);
    var earned := Settle(records, p, a);
    var reserved := ApplyReservedShare(earned.value, hotkey, share);
    r := Publish(chain, reserved.value, neurons);
    PositiveHolds(AsUid(reserved.value.ppm, UidsOf(neurons), |neurons|).value,
                  UidsOf(neurons)[hotkey], (share * TOTAL).Floor);
  }

  /** A weight of at least one is among the positive ones. */
  lemma PositiveHolds(vector: seq<int>, uid: int, low: int)
    requires 0 <= uid < |vector| && vector[uid] >= low >= 1
    ensures Positive(vector) != []
    ensures WeightAtLeast(Positive(vector), WeightsAt(vector, Positive(vector)), uid, low)
  {
    assert uid in Positive(vector);
    var i :| 0 <= i < |Positive(vector)| && Positive(vector)[i] == uid;
    assert WeightsAt(vector, Positive(vector))[i] == vector[uid];
  }

  // ----- The order of the ledger does not matter -----

  lemma {:induction false} ForSubmissionAppend(a: seq<Filed>, b: seq<Filed>, id: string)
    ensures ForSubmission(a + b, id) == ForSubmission(a, id) + ForSubmission(b, id)
  {
    if b == [] {
      assert a + b == a;
    } else {
      assert (a + b)[..|a + b| - 1] == a + b[..|b| - 1];
      ForSubmissionAppend(a, b[..|b| - 1], id);
    }
  }

  lemma ForSubmissionOne(f: Filed, id: string)
    ensures ForSubmission([f], id) == if f.submissionId == id then [f.record] else []
  {
    assert [f][..0] == [];
  }

  lemma {:induction false} ForSubmissionPermuted(a: seq<Filed>, b: seq<Filed>, id: string)
    requires multiset(a) == multiset(b)
    ensures multiset(ForSubmission(a, id)) == multiset(ForSubmission(b, id))
    decreases |a|
  {
    if a == [] {
      assert |multiset(b)| == 0;
    } else {
      var i := SplitAt(a, b);
      ForSubmissionPermuted(a[..|a| - 1], b[..i] + b[i + 1..], id);
      ForSubmissionAppend(b[..i], b[i + 1..], id);
      ForSubmissionAppend(b[..i] + [b[i]], b[i + 1..], id);
      ForSubmissionAppend(b[..i], [b[i]], id);
      ForSubmissionOne(b[i], id);
    }
  }

  lemma {:induction false} PassingAgrees(f: string -> RoundScore, g: string -> RoundScore, ids: seq<string>)
    requires forall id :: f(id).verdict == g(id).verdict && f(id).yieldScore == g(id).yieldScore
    ensures Passing(f, ids) == Passing(g, ids)
  {
    if ids != [] {
      PassingAgrees(f, g, ids[..|ids| - 1]);
    }
  }

  lemma ScoresAgree(a: seq<Filed>, b: seq<Filed>, p: YieldScore.ScoringParams, id: string)
    requires multiset(a) == multiset(b)
    ensures ScoreOf(a, p, id).verdict == ScoreOf(b, p, id).verdict
    ensures ScoreOf(a, p, id).yieldScore == ScoreOf(b, p, id).yieldScore
  {
    ForSubmissionPermuted(a, b, id);
    ScoreOrderIndependent(id, ForSubmission(a, id), ForSubmission(b, id), p);
  }

  lemma SubmissionsAgree(a: seq<Filed>, b: seq<Filed>)
    requires multiset(a) == multiset(b)
    ensures Submissions(a) == Submissions(b)
  {
    SortedSetIs(Map(a, IdOf));
    SortedSetIs(Map(b, IdOf));
    IdsWithin(a, b);
    IdsWithin(b, a);
    AscendingUnique(Submissions(a), Submissions(b));
  }

  lemma IdsWithin(a: seq<Filed>, b: seq<Filed>)
    requires multiset(a) == multiset(b)
    ensures forall x :: x in Map(a, IdOf) ==> x in Map(b, IdOf)
  {
    forall x | x in Map(a, IdOf) ensures x in Map(b, IdOf) {
      var i :| 0 <= i < |a| && Map(a, IdOf)[i] == x;
      assert a[i] in multiset(b);
      var j :| 0 <= j < |b| && b[j] == a[i];
      assert Map(b, IdOf)[j] == x;
    }
  }

  lemma {:induction false} AscendingUnique(a: seq<string>, b: seq<string>)
    requires Ascending(a) && Ascending(b) && forall x :: x in a <==> x in b
    ensures a == b
  {
    LexOrder();
    forall x ensures multiset(a)[x] == multiset(b)[x] {
      DistinctCounts(a, x);
      DistinctCounts(b, x);
      assert x in a <==> x in multiset(a);
      assert x in b <==> x in multiset(b);
    }
    SortedUnique(a, b, LexLe);
  }

  /** The weights a round earns depend on its records, not on the order they were appended in. */
  lemma SettledOrderIndependent(a: seq<Filed>, b: seq<Filed>, p: YieldScore.ScoringParams, q: AllocationParams)
    requires Ranking.ValidParams(q) && multiset(a) == multiset(b)
    ensures Settled(a, p, q) == Settled(b, p, q)
  {
    SubmissionsAgree(a, b);
    var f, g := Scorer(a, p), Scorer(b, p);
    forall id ensures f(id).verdict == g(id).verdict && f(id).yieldScore == g(id).yieldScore {
      ScoresAgree(a, b, p, id);
    }
    PassingAgrees(f, g, Submissions(a));
  }
}
