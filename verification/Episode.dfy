/** src/enclave/episode/runner.py: one instance from first frame to record. */
module Episode {
  import opened Metering
  import opened Numbers
  import opened Pricing
  import opened Records
  import opened Relay
  import opened Wrappers
  import YieldScore

  datatype ContainerOutcome = COMPLETED | TIMED_OUT | CRASHED_OUT | START_FAILED

  /** The spend cap is checked by the meter's constructor. */
  datatype EpisodeError = SpendCapNotPositive

  /** `_classify`: the first rule that applies. `grade` is None when grading raised. */
  function Classify(container: ContainerOutcome, s: Session, grade: Option<bool>): Outcome {
    if container.START_FAILED? then Outcome.ENVIRONMENT_FAULT
    else if s.violations != [] then PROTOCOL_VIOLATION
    else if container.TIMED_OUT? then TIMEOUT
    else if s.meter.AtCap() then Outcome.CAP_EXHAUSTED
    else if container.CRASHED_OUT? then CRASHED
    else if s.answer.None? then UNSOLVED
    else if !s.meter.CrossedRelay() then PROTOCOL_VIOLATION
    else if grade == Some(true) then SOLVED
    else UNSOLVED
  }

  /** The session when the container has ended and the runner has sealed the meter. */
  function Final(config: Config, events: seq<Event>): Session {
    Step(config, Run(config, Start(config), events), Stop).session
  }

  /** Grading is asked for only when there is an answer. */
  function GradeOf(s: Session, grades: string -> Option<bool>): Option<bool> {
    if s.answer.Some? then grades(s.answer.value) else None
  }

  function Recorded(
      id: string, audited: bool, s: Session, container: ContainerOutcome, grades: string -> Option<bool>):
    InstanceRecord
  {
    var outcome := Classify(container, s, GradeOf(s, grades));
    InstanceRecord(id, outcome, Dollars(s.meter.spent), audited,
                   if audited then Some(outcome == SOLVED) else None)
  }

  /** What is stored beside the outcome: the logged calls, the counts, and the transcript's digest. */
  datatype EpisodeResult = EpisodeResult(
    record: InstanceRecord, calls: seq<CallCost>, actions: nat, callCount: nat,
    container: ContainerOutcome, grade: Option<bool>, digest: string, violations: seq<Violation>)

  /** The transcript's digest, of the calls, the spend and the answer. */
  type Digester = (seq<CallCost>, int, Option<string>) -> string

  function ResultOf(
      id: string, audited: bool, s: Session, container: ContainerOutcome,
      grades: string -> Option<bool>, digest: Digester): EpisodeResult
  {
    EpisodeResult(
      Recorded(id, audited, s, container, grades), s.meter.calls, s.actions, |s.meter.calls|, container,
      GradeOf(s, grades), digest(s.meter.calls, s.meter.spent, s.answer), s.violations)
  }

  method ClassifyEpisode(container: ContainerOutcome, session: RelaySession, grade: Option<bool>)
      returns (outcome: Outcome)
    ensures outcome == Classify(container, session.View(), grade)
  {
    if container.START_FAILED? { return Outcome.ENVIRONMENT_FAULT; }
    if session.violations != [] { return PROTOCOL_VIOLATION; }
    if container.TIMED_OUT? { return TIMEOUT; }
    if Dollars(session.meter.spent) >= session.meter.spendCap { return Outcome.CAP_EXHAUSTED; }
    if container.CRASHED_OUT? { return CRASHED; }
    if session.answer.None? { return UNSOLVED; }
    var crossed := exists c :: c in session.meter.calls && c.price.model != OBSERVATION_CHANNEL && c.outputTokens > 0;
    if !crossed { return PROTOCOL_VIOLATION; }
    if grade.None? { return UNSOLVED; }
    return if grade.value then SOLVED else UNSOLVED;
  }

  /** `events` is what happens on the socket while the container runs. */
  method RunEpisode(
      id: string, audited: bool, config: Config, events: seq<Event>,
      container: ContainerOutcome, grades: string -> Option<bool>, digest: Digester)
      returns (r: Result<EpisodeResult, EpisodeError>)
    ensures config.spendCap <= 0.0 ==> r == Failure(SpendCapNotPositive)
    ensures config.spendCap > 0.0 ==>
      r == Success(ResultOf(id, audited, Final(config, events), container, grades, digest))
  {
    if config.spendCap <= 0.0 {
      return Failure(SpendCapNotPositive);
    }
    var meter := new Meter(config.snapshot, config.spendCap);
    var session := new RelaySession(meter, config.defaultModel);
    var server := new RelayServer(session);
    var i := 0;
    while i < |events|
      invariant i <= |events|
      invariant fresh(meter) && fresh(session) && fresh(server)
      invariant server.session == session && session.meter == meter
      invariant server.View() == Run(config, Start(config), events[..i])
    {
      server.Handle(events[i]);
      assert events[..i + 1][..i] == events[..i];
      i := i + 1;
    }
    assert events[..|events|] == events;
    server.Handle(Stop);
    var grade := if session.answer.Some? then grades(session.answer.value) else None;
    var outcome := ClassifyEpisode(container, session, grade);
    var record := InstanceRecord(id, outcome, Dollars(meter.spent), audited,
                                 if audited then Some(outcome == SOLVED) else None);
    return Success(EpisodeResult(
      record, meter.calls, session.actions, |meter.calls|, container, grade,
      digest(meter.calls, meter.spent, session.answer), session.violations));
  }

  // ----- What a record means -----

  lemma FinalIsSafe(config: Config, events: seq<Event>)
    requires config.spendCap > 0.0
    ensures Safe(config, Final(config, events)) && Final(config, events).meter.sealed
  {
    RunKeepsSafe(config, Start(config), events);
    StepKeepsSafe(config, Run(config, Start(config), events), Stop);
  }

  /** Exactly the episodes that are recorded as solved. */
  lemma SolvedExactly(container: ContainerOutcome, s: Session, grade: Option<bool>)
    ensures Classify(container, s, grade) == SOLVED
      <==> && container.COMPLETED? && s.violations == [] && !s.meter.AtCap()
           && s.answer.Some? && s.meter.CrossedRelay() && grade == Some(true)
  {
  }

  /** Some model call, not an observation, produced output. */
  ghost predicate Crossed(calls: seq<CallCost>) {
    exists c :: c in calls && c.price.model != "environment.observation" && c.outputTokens > 0
  }

  /**
   * Exactly which outcome a whole run is recorded with, on what the session holds when it has ended and
   * how the container ended.
   */
  lemma {:induction false} OutcomeExactly(
      id: string, audited: bool, config: Config, events: seq<Event>,
      container: ContainerOutcome, grades: string -> Option<bool>)
    requires config.spendCap > 0.0
    ensures var s := Final(config, events);
      var r := Recorded(id, audited, s, container, grades);
      var o := r.outcome;
      var clean := s.violations == [];
      var below := s.meter.spent as real / 100_000_000.0 < config.spendCap;
      && (o == Outcome.ENVIRONMENT_FAULT <==> container.START_FAILED?)
      && (o == TIMEOUT <==> container.TIMED_OUT? && clean)
      && (o == Outcome.CAP_EXHAUSTED <==> (container.COMPLETED? || container.CRASHED_OUT?) && clean && !below)
      && (o == CRASHED <==> container.CRASHED_OUT? && clean && below)
      && (o == PROTOCOL_VIOLATION <==>
            && !container.START_FAILED?
            && (!clean || (container.COMPLETED? && below && s.answer.Some? && !Crossed(s.meter.calls))))
      && (o == SOLVED <==>
            && container.COMPLETED? && clean && below && s.answer.Some? && Crossed(s.meter.calls)
            && grades(s.answer.value) == Some(true))
      && (o == UNSOLVED <==>
            && container.COMPLETED? && clean && below
            && (s.answer.None? || (Crossed(s.meter.calls) && grades(s.answer.value) != Some(true))))
      && r.instanceId == id && r.spend == s.meter.spent as real / 100_000_000.0
      && r.audited == audited && r.auditPassed == (if audited then Some(o == SOLVED) else None)
  {
    FinalIsSafe(config, events);
    CrossedIs(Final(config, events).meter);
  }

  lemma CrossedIs(m: MeterState)
    ensures m.CrossedRelay() <==> Crossed(m.calls)
  {
  }

  /**
   * Over every run: a solved record was paid for. The container completed, nothing was violated at
   * any point, the spend is the exact price of the logged calls and below the cap, and among the
   * calls is one to a priced model that produced output.
   */
  lemma SolvedMeansMetered(
      id: string, audited: bool, config: Config, events: seq<Event>,
      container: ContainerOutcome, grades: string -> Option<bool>) returns (call: CallCost)
    requires config.spendCap > 0.0
    requires Recorded(id, audited, Final(config, events), container, grades).Solved()
    ensures var s := Final(config, events);
      && container.COMPLETED?
      && (forall k :: 0 <= k <= |events| ==> Run(config, Start(config), events[..k]).session.violations == [])
      && s.answer.Some? && grades(s.answer.value) == Some(true)
      && Recorded(id, audited, s, container, grades).spend == Dollars(TotalCost(s.meter.calls)) < config.spendCap
      && call in s.meter.calls && call.price in config.snapshot
      && call.price.model != OBSERVATION_CHANNEL && call.outputTokens > 0
  {
    FinalIsSafe(config, events);
    var s := Final(config, events);
    forall k | 0 <= k <= |events|
      ensures Run(config, Start(config), events[..k]).session.violations == []
    {
      ViolationsStay(config, events, k);
    }
    call :| call in s.meter.calls && call.price.model != OBSERVATION_CHANNEL && call.outputTokens > 0;
  }

  /**
   * What is stored bears itself out: the spend is the sum of the half-even prices of the stored calls,
   * each under an entry of the snapshot, and a record with a violation is of a protocol violation,
   * unless the container never started.
   */
  lemma StoredIsConsistent(
      id: string, audited: bool, config: Config, events: seq<Event>,
      container: ContainerOutcome, grades: string -> Option<bool>, digest: Digester)
    requires config.spendCap > 0.0
    ensures var r := ResultOf(id, audited, Final(config, events), container, grades, digest);
      && r.record.spend == Dollars(TotalCost(r.calls)) && r.callCount == |r.calls|
      && (forall c :: c in r.calls ==> c.price in config.snapshot)
      && (r.violations != [] && !container.START_FAILED? ==> r.record.outcome == PROTOCOL_VIOLATION)
      && (r.record.outcome == SOLVED ==> r.violations == [] && r.grade == Some(true))
  {
    FinalIsSafe(config, events);
  }

  /** A violation recorded after `k` events is still recorded at the end. */
  lemma ViolationsStay(config: Config, events: seq<Event>, k: nat)
    requires k <= |events|
    ensures Run(config, Start(config), events[..k]).session.violations <= Final(config, events).violations
  {
    RunSplit(config, Start(config), events, k);
    RunGrows(config, Run(config, Start(config), events[..k]), events[k..]);
  }

  lemma {:induction false} RunSplit(config: Config, from: Server, events: seq<Event>, k: nat)
    requires k <= |events|
    ensures Run(config, from, events) == Run(config, Run(config, from, events[..k]), events[k..])
  {
    if k == |events| {
      assert events[..k] == events;
    } else {
      RunSplit(config, from, events[..|events| - 1], k);
      assert events[..|events| - 1][..k] == events[..k];
      assert events[k..][..|events| - k - 1] == events[..|events| - 1][k..];
    }
  }

  /** A submission that offends at any point of a run is never recorded as solved. */
  lemma OffenderIsNeverSolved(
      id: string, audited: bool, config: Config, events: seq<Event>, k: nat,
      container: ContainerOutcome, grades: string -> Option<bool>)
    requires k < |events| && Offends(Run(config, Start(config), events[..k]), events[k])
    ensures Recorded(id, audited, Final(config, events), container, grades).outcome
      == if container.START_FAILED? then Outcome.ENVIRONMENT_FAULT else PROTOCOL_VIOLATION
  {
    var after := events[..k + 1];
    assert after[..k] == events[..k];
    OffenceIsRecorded(config, Run(config, Start(config), events[..k]), events[k]);
    ViolationsStay(config, events, k + 1);
  }

  /** The record's own constructor never refuses what an episode hands it. */
  lemma RecordIsValid(
      id: string, audited: bool, config: Config, events: seq<Event>,
      container: ContainerOutcome, grades: string -> Option<bool>)
    requires config.spendCap > 0.0 && ValidSnapshot(config.snapshot)
    ensures ValidRecord(Recorded(id, audited, Final(config, events), container, grades))
  {
    FinalIsSafe(config, events);
    TotalNonnegative(config.snapshot, Final(config, events).meter.calls);
  }

  lemma {:induction false} TotalNonnegative(snapshot: PriceSnapshot, calls: seq<CallCost>)
    requires ValidSnapshot(snapshot) && forall c :: c in calls ==> c.price in snapshot
    ensures TotalCost(calls) >= 0
  {
    if calls != [] {
      var c := calls[|calls| - 1];
      TotalNonnegative(snapshot, calls[..|calls| - 1]);
      PriceMonotone(c.price, c.inputTokens, c.outputTokens, c.inputTokens, c.outputTokens);
    }
  }

  // ----- What the score makes of it -----

  /** When scorer and meter share a cap, clamping at the cap changes no solved record's charge. */
  lemma ClampInertOnSolved(
      id: string, audited: bool, config: Config, events: seq<Event>,
      container: ContainerOutcome, grades: string -> Option<bool>, p: YieldScore.ScoringParams)
    requires config.spendCap > 0.0 && p.spendCap == config.spendCap
    requires Recorded(id, audited, Final(config, events), container, grades).Solved()
    ensures var r := Recorded(id, audited, Final(config, events), container, grades);
      YieldScore.ChargedCost(r, p)
        == YieldScore.Max(Dollars(TotalCost(Final(config, events).meter.calls)), p.denominatorFloor)
  {
    var _ := SolvedMeansMetered(id, audited, config, events, container, grades);
  }

  /**
   * A record of an exhausted cap: the meter was below the cap until its last call, and however far
   * that call went over, exactly the cap and the penalty are charged.
   */
  lemma ExhaustedIsChargedTheCap(
      id: string, audited: bool, config: Config, events: seq<Event>,
      container: ContainerOutcome, grades: string -> Option<bool>, p: YieldScore.ScoringParams)
    requires config.spendCap > 0.0 && p.spendCap == config.spendCap && YieldScore.ValidParams(p)
    requires Recorded(id, audited, Final(config, events), container, grades).outcome == Outcome.CAP_EXHAUSTED
    ensures var m := Final(config, events).meter;
      && m.calls != []
      && Dollars(m.spent - CostOf(m.calls[|m.calls| - 1])) < config.spendCap <= Dollars(m.spent)
    ensures YieldScore.ChargedCost(Recorded(id, audited, Final(config, events), container, grades), p)
      == p.spendCap + p.failurePenalty
  {
    CapHoldsToOneCall(config, events);
    FinalIsSafe(config, events);
  }

  /** An audited instance fails its audit exactly when it is not solved, whatever the reason. */
  lemma AuditFollowsOutcome(
      id: string, audited: bool, s: Session, container: ContainerOutcome, grades: string -> Option<bool>)
    ensures var r := Recorded(id, audited, s, container, grades);
      r.FailedAudit() <==> audited && !r.Solved()
  {
  }

  /** One audited instance that is scoreable and not solved voids its whole round. */
  lemma FailedAuditVoids(
      id: string, s: Session, container: ContainerOutcome, grades: string -> Option<bool>,
      round: seq<InstanceRecord>, submission: string, p: YieldScore.ScoringParams)
    requires Recorded(id, true, s, container, grades) in round
    requires !container.START_FAILED? && !Recorded(id, true, s, container, grades).Solved()
    ensures var score := YieldScore.ScoreRound(submission, round, p);
      score.verdict == FAIL && score.yieldScore == 0.0
  {
    var r := Recorded(id, true, s, container, grades);
    AuditFollowsOutcome(id, true, s, container, grades);
    assert r.Scoreable();
    assert r in YieldScore.Scoreable(round);
  }

  /**
   * A quote refused below the cap is answered CAP_EXHAUSTED and seals the meter, so the bill is final;
   * but whatever follows, the episode is not recorded as having exhausted its cap.
   */
  lemma RefusedQuoteIsNotExhaustion(
      id: string, audited: bool, config: Config, events: seq<Event>, k: nat,
      container: ContainerOutcome, grades: string -> Option<bool>)
    requires k < |events| && events[k].Arrive?
    requires var server := Run(config, Start(config), events[..k]);
      && events[k].conn !in server.waiting && !server.session.meter.AtCap()
      && Quotable(config, server.session, events[k].request)
      && Dollars(QuoteOf(config.snapshot, Asked(config, events[k].request))) > server.session.meter.Remaining()
    ensures var s := Run(config, Start(config), events[..k]).session;
      && Served(config.snapshot, config.defaultModel, s, events[k].request).1 == Error(ErrorCode.CAP_EXHAUSTED)
      && Final(config, events).meter == Sealed(s.meter)
      && Recorded(id, audited, Final(config, events), container, grades).spend == Dollars(s.meter.spent)
      && Recorded(id, audited, Final(config, events), container, grades).outcome != Outcome.CAP_EXHAUSTED
  {
    var server := Run(config, Start(config), events[..k]);
    RefusedExactly(config, server.session, events[k].request);
    var after := Run(config, Start(config), events[..k + 1]);
    assert events[..k + 1][..k] == events[..k];
    assert after.session.meter == Sealed(server.session.meter);
    RunSplit(config, Start(config), events, k + 1);
    RunGrows(config, after, events[k + 1..]);
  }

  const FREE_OUTPUT := Completion(1, None, None)

  const BILLED := MeterState(1.5, 100_000_000, [CallCost(PER_TOKEN, 1, 1)], false)
  const HALF_LEFT := Server(Session(BILLED, READY, None, 0, false, []), map[])
  const ANSWERED := Server(Session(Sealed(BILLED), SUBMITTED, Some("x"), 0, false, []), map[])
  const ASK := Arrive(0, ONE_TOKEN)

  lemma BilledOnce()
    ensures Run(OVERSPENT, Start(OVERSPENT), [Arrive(0, Initialise(false)), ASK, Complete(0, FREE_OUTPUT)]) == HALF_LEFT
  {
    OneTokenCosts();
    HalfEvenWhole(100_000_000);
    var e0, e2 := Arrive(0, Initialise(false)), Complete(0, FREE_OUTPUT);
    var s1 := Step(OVERSPENT, Start(OVERSPENT), e0);
    var s2 := Step(OVERSPENT, s1, ASK);
    assert s2 == s1.(waiting := map[0 := Pending("m", 1, 0)]);
    assert Price(PER_TOKEN, 1, 1) == 100_000_000;
    assert Step(OVERSPENT, s2, e2) == HALF_LEFT;
    RunsThree(OVERSPENT, Start(OVERSPENT), e0, ASK, e2);
  }

  lemma RefusedOnce()
    ensures Served(OVERSPENT.snapshot, OVERSPENT.defaultModel, HALF_LEFT.session, ONE_TOKEN)
      == (HALF_LEFT.session.(phase := TERMINATED, meter := Sealed(BILLED)), Error(ErrorCode.CAP_EXHAUSTED))
  {
    OneTokenCosts();
    assert Lookup(OVERSPENT.snapshot, "m") == Success(PER_TOKEN);
    assert Quotable(OVERSPENT, HALF_LEFT.session, ONE_TOKEN);
    assert QuoteOf(OVERSPENT.snapshot, Asked(OVERSPENT, ONE_TOKEN)) == 100_000_000;
    RefusedExactly(OVERSPENT, HALF_LEFT.session, ONE_TOKEN);
  }

  lemma AnsweredAfter()
    ensures Step(OVERSPENT, Step(OVERSPENT, HALF_LEFT, ASK), Arrive(0, Submit(false, Some("x")))) == ANSWERED
  {
    RefusedOnce();
  }

  lemma AnsweredIsSolved(grades: string -> Option<bool>)
    requires grades("x") == Some(true)
    ensures Recorded("i", false, Step(OVERSPENT, ANSWERED, Stop).session, COMPLETED, grades)
      == InstanceRecord("i", SOLVED, 1.0, false, None)
  {
    var s := Step(OVERSPENT, ANSWERED, Stop).session;
    assert s.meter.calls[0] == CallCost(PER_TOKEN, 1, 1) && s.meter.calls[0] in s.meter.calls;
    assert PER_TOKEN.model != OBSERVATION_CHANNEL;
    SolvedExactly(COMPLETED, s, Some(true));
  }

  /** It does happen: a refusal with half a dollar left, then an answer, and the episode is solved. */
  lemma SolvedAfterRefusal(grades: string -> Option<bool>)
    requires grades("x") == Some(true)
    ensures var events := [Arrive(0, Initialise(false)), ASK, Complete(0, FREE_OUTPUT),
                           ASK, Arrive(0, Submit(false, Some("x")))];
      && Served(OVERSPENT.snapshot, OVERSPENT.defaultModel,
                Run(OVERSPENT, Start(OVERSPENT), events[..3]).session, ONE_TOKEN).1 == Error(ErrorCode.CAP_EXHAUSTED)
      && Recorded("i", false, Final(OVERSPENT, events), COMPLETED, grades)
         == InstanceRecord("i", SOLVED, 1.0, false, None)
  {
    var e0, e2, e4 := Arrive(0, Initialise(false)), Complete(0, FREE_OUTPUT), Arrive(0, Submit(false, Some("x")));
    var events := [e0, ASK, e2, ASK, e4];
    assert events[..3] == [e0, ASK, e2];
    BilledOnce();
    RefusedOnce();
    AnsweredAfter();
    RunsThree(OVERSPENT, Start(OVERSPENT), e0, ASK, e2);
    RunsFive(OVERSPENT, Start(OVERSPENT), e0, ASK, e2, ASK, e4);
    AnsweredIsSolved(grades);
  }

  lemma RunsThree(config: Config, s: Server, e0: Event, e1: Event, e2: Event)
    ensures Run(config, s, [e0, e1, e2]) == Step(config, Step(config, Step(config, s, e0), e1), e2)
  {
    assert Run(config, s, []) == s;
    assert [] + [e0] == [e0] && [e0] + [e1] == [e0, e1] && [e0, e1] + [e2] == [e0, e1, e2];
    RunsOneMore(config, s, [], e0);
    RunsOneMore(config, s, [e0], e1);
    RunsOneMore(config, s, [e0, e1], e2);
  }
}
