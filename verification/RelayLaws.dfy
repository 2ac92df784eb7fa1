/**
 * src/enclave/relay/server.py and meter.py: what one request is answered with and billed, said by
 * inequalities on the logged call and on the spend.
 */
module RelayLaws {
  import opened Metering
  import opened Pricing
  import opened Numbers
  import opened Relay
  import opened Sorting
  import opened Strings
  import opened Wrappers

  /** The larger of what was counted and what the provider reported; no report counts as zero. */
  predicate Larger(counted: int, reported: Option<int>, billed: int) {
    && billed >= counted
    && (reported.Some? ==> billed >= reported.value)
    && (billed == counted || (reported.Some? && billed == reported.value))
    && (reported.None? || reported.value <= 0 ==> billed == counted)
  }

  /** One more call is logged, under the entry of `model`, and the spend grows by its price to half a quantum. */
  ghost predicate BillsOne(
      snapshot: PriceSnapshot, m: MeterState, n: MeterState, model: string, inputTokens: int, outputTokens: int)
  {
    && |n.calls| == |m.calls| + 1 && n.calls[..|m.calls|] == m.calls && n.spendCap == m.spendCap
    && var call := n.calls[|m.calls|];
    && call.price in snapshot && call.price.model == model
    && call.inputTokens == inputTokens && call.outputTokens == outputTokens
    && var quanta := inputTokens as real * call.price.inputPerMtok + outputTokens as real * call.price.outputPerMtok;
    && -0.5 <= (n.spent - m.spent) as real - 100.0 * quanta <= 0.5
  }

  /** The session goes on with `reply` while the spend is below the cap, and ends when it reaches it. */
  ghost predicate EndsAtCap(s: Session, t: Session, reply: Reply, paid: Reply) {
    if t.meter.spent as real / 100_000_000.0 < t.meter.spendCap then
      reply == paid && !t.meter.sealed && t.phase == s.phase
    else
      reply == Error(CAP_EXHAUSTED) && t.meter.sealed && t.phase == TERMINATED
  }

  lemma {:induction false} ChargeBillsOne(snapshot: PriceSnapshot, m: MeterState, price: ModelPrice, i: nat, o: nat)
    requires !m.sealed && price in snapshot
    ensures var (n, outcome) := AfterCharge(m, price, i, o);
      && BillsOne(snapshot, m, n, price.model, i, o)
      && (n.sealed <==> n.AtCap()) && (outcome == SpendCapExceeded <==> n.AtCap())
      && (outcome.Charged? <==> !n.AtCap())
  {
    var quanta := i as real * price.inputPerMtok + o as real * price.outputPerMtok;
    HalfEvenWhole(m.spent + Price(price, i, o));
    InQuanta(quanta);
    assert Price(price, i, o) == HalfEven(100.0 * quanta);
  }

  lemma InQuanta(dollarsPerMillion: real)
    ensures dollarsPerMillion / 1_000_000.0 * QUANTA_PER_DOLLAR == 100.0 * dollarsPerMillion
  {
  }

  /**
   * A completion that comes back while the meter is open is billed as one call: the larger of counted
   * and reported tokens on either side, whatever the reply says.
   */
  lemma {:induction false} CompletionBillsLarger(
      snapshot: PriceSnapshot, s: Session, pending: Pending, outcome: ProviderOutcome)
      returns (inputTokens: nat, outputTokens: nat)
    requires !s.meter.sealed && outcome.Completion? && pending.promptTokens >= 0 && outcome.outputTokens >= 0
    requires exists e :: e in snapshot && e.model == pending.model
    ensures Larger(pending.promptTokens, outcome.reportedInput, inputTokens)
    ensures Larger(outcome.outputTokens, outcome.reportedOutput, outputTokens)
    ensures var (t, reply) := Finished(snapshot, s, pending, outcome);
      && BillsOne(snapshot, s.meter, t.meter, pending.model, inputTokens, outputTokens)
      && t.answer == s.answer && t.actions == s.actions && t.violations == s.violations
      && EndsAtCap(s, t, reply, Completed(inputTokens, outputTokens,
                                          t.meter.spendCap - t.meter.spent as real / 100_000_000.0))
  {
    var price := Lookup(snapshot, pending.model).value;
    inputTokens := MaxInt(pending.promptTokens, OrZero(outcome.reportedInput));
    outputTokens := MaxInt(outcome.outputTokens, OrZero(outcome.reportedOutput));
    ChargeBillsOne(snapshot, s.meter, price, inputTokens, outputTokens);
  }

  /** Otherwise nothing is billed and nothing changes: a provider that fails is told, the rest escapes. */
  lemma {:induction false} CompletionBillsNothing(
      snapshot: PriceSnapshot, s: Session, pending: Pending, outcome: ProviderOutcome)
    requires s.meter.sealed || outcome.ProviderFailed? || forall e :: e in snapshot ==> e.model != pending.model
    ensures Finished(snapshot, s, pending, outcome)
      == (s, if outcome.ProviderFailed? then Error(PROVIDER_ERROR) else Raised)
  {
  }

  // ----- Requests -----

  /** Initialised and not answered: the session serves what it is asked. */
  predicate Serves(s: Session) { s.phase != CREATED && s.answer.None? }

  /** Only `initialise` is served before the first `initialise`, and only it after an answer. */
  lemma {:induction false} SequenceExactly(config: Config, s: Session, request: Request)
    ensures var (t, reply) := Served(config.snapshot, config.defaultModel, s, request);
      && (reply == Error(OUT_OF_SEQUENCE) <==> !request.Initialise? && s.phase == CREATED)
      && (reply == Error(ALREADY_SUBMITTED) <==> !request.Initialise? && s.phase != CREATED && s.answer.Some?)
      && (reply.Ready? <==> request.Initialise?)
      && (reply == Accepted <==> request.Submit? && Serves(s) && request.answer.Some?)
      && t.answer == (if reply == Accepted then request.answer else s.answer)
      && t.violations == (if request.banned then s.violations + [StrippedFields] else s.violations)
  {
    if request.Completions? {
      AskedReplies(config, Screened(s, request), request);
    } else if request.Act? {
      ActReplies(config, Screened(s, request), request);
    }
  }

  lemma {:induction false} AskedReplies(config: Config, s: Session, request: Request)
    requires request.Completions?
    ensures var (t, reply) := AskedFor(config.snapshot, config.defaultModel, s, request);
      && (reply.Suspended? || reply.Raised?
          || reply in {Error(MALFORMED), Error(UNPRICED_MODEL), Error(CAP_EXHAUSTED)})
      && t.answer == s.answer && t.violations == s.violations
  {
  }

  lemma {:induction false} ActReplies(config: Config, s: Session, request: Request)
    requires request.Act?
    ensures var (t, reply) := Acted(config.snapshot, s, request);
      && (reply.Observed? || reply.Raised?
          || reply in {Error(MALFORMED), Error(ENVIRONMENT_FAULT), Error(CAP_EXHAUSTED)})
      && t.answer == s.answer && t.violations == s.violations
  {
  }

  /** A completion is malformed, or names what may not be named, in exactly these cases, and then changes nothing. */
  lemma {:induction false} AskedExactly(config: Config, s: Session, request: Request)
    requires request.Completions? && Serves(s)
    ensures var (t, reply) := Served(config.snapshot, config.defaultModel, s, request);
      var malformed := request.messages == 0 || !request.messagesParse || request.model.NotAString?;
      var unpriced := && request.model.Named?
                      && (|| request.model.name == "environment.observation"
                          || forall e :: e in config.snapshot ==> e.model != request.model.name);
      && (reply == Error(MALFORMED) <==> malformed)
      && (reply == Error(UNPRICED_MODEL) <==> !malformed && unpriced)
      && (malformed || unpriced ==> t == Screened(s, request))
      && (reply.Suspended? ==>
            && reply.pending.model == (if request.model.Named? then request.model.name else config.defaultModel)
            && reply.pending.promptTokens == request.promptTokens
            && Some(reply.pending.maxTokens) == request.maxTokens)
  {
    if request.model.Named? {
      var name := request.model.name;
      assert Lookup(config.snapshot, name).Success? ==> Lookup(config.snapshot, name).value in config.snapshot;
    }
  }

  /** What `initialise` tells: the cap, and every priced model but the observation channel, in order. */
  lemma {:induction false} TellsOfModels(config: Config, s: Session, request: Request)
    requires request.Initialise?
    ensures var (t, reply) := Served(config.snapshot, config.defaultModel, s, request);
      && reply.Ready? && reply.spendCap == s.meter.spendCap
      && (forall m :: m in reply.models <==>
            m != "environment.observation" && exists e :: e in config.snapshot && e.model == m)
      && Sorted(reply.models, LexLe)
      && t == Screened(s, request).(phase := READY)
  {
    var reply := Served(config.snapshot, config.defaultModel, s, request).1;
    OfferedAscends(config.snapshot);
    forall m ensures m in reply.models <==>
      m != "environment.observation" && exists e :: e in config.snapshot && e.model == m
    {
      OfferedIsSelectable(config.snapshot, m);
    }
  }

  lemma {:induction false} OfferedAscends(entries: PriceSnapshot)
    ensures Sorted(Offered(entries), LexLe)
  {
    LexOrder();
    SortBySorted(Map(entries, ModelOf), LexLe);
    FilteredAscends(SortBy(Map(entries, ModelOf), LexLe));
  }

  lemma {:induction false} FilteredAscends(models: seq<string>)
    requires Sorted(models, LexLe)
    ensures Sorted(WithoutChannel(models), LexLe)
  {
    if models != [] {
      var rest, last := models[..|models| - 1], models[|models| - 1];
      FilteredAscends(rest);
      forall m | m in WithoutChannel(rest) ensures LexLe(m, last) {
        var i :| 0 <= i < |rest| && rest[i] == m;
        assert LexLe(models[i], last);
      }
    }
  }

  /**
   * An action on an open meter that the sink accepts is counted, and billed as one call of the
   * observation channel with the tokens seen and no output.
   */
  lemma {:induction false} ObservationIsBilled(config: Config, s: Session, request: Request)
    requires request.Act? && Serves(s) && !s.meter.sealed
    requires request.action.Some? && request.action.value != "" && request.argumentsAreObject
    requires request.observation.Some? && request.observation.value.tokens >= 0
    requires exists e :: e in config.snapshot && e.model == OBSERVATION_CHANNEL
    ensures var (t, reply) := Served(config.snapshot, config.defaultModel, s, request);
      var seen := request.observation.value;
      && BillsOne(config.snapshot, s.meter, t.meter, OBSERVATION_CHANNEL, seen.tokens, 0)
      && t.actions == s.actions + 1 && (t.terminalReached <==> s.terminalReached || seen.terminal)
      && EndsAtCap(s, t, reply, Observed(seen.terminal, t.meter.spendCap - t.meter.spent as real / 100_000_000.0))
  {
    var price := Lookup(config.snapshot, OBSERVATION_CHANNEL).value;
    ChargeBillsOne(config.snapshot, s.meter, price, request.observation.value.tokens, 0);
  }

  /** A malformed action, or one that the sink does not take, changes nothing. */
  lemma {:induction false} ActionRefused(config: Config, s: Session, request: Request)
    requires request.Act? && Serves(s)
    ensures var (t, reply) := Served(config.snapshot, config.defaultModel, s, request);
      var malformed := request.action.None? || request.action.value == "" || !request.argumentsAreObject;
      && (reply == Error(MALFORMED) <==> malformed)
      && (reply == Error(ENVIRONMENT_FAULT) <==> !malformed && request.observation.None?)
      && (malformed || request.observation.None? ==> t == Screened(s, request))
  {
  }

  // ----- Connections -----

  /** A connection that waits is not read; one that is served waits exactly if its request was let through. */
  lemma {:induction false} ArriveExactly(config: Config, server: Server, conn: nat, request: Request)
    ensures var after := Step(config, server, Arrive(conn, request));
      var (t, reply) := Served(config.snapshot, config.defaultModel, server.session, request);
      && (conn in server.waiting ==> after == server)
      && (conn !in server.waiting ==>
            && (conn in after.waiting <==> reply.Suspended?)
            && (reply.Suspended? ==> after.waiting[conn] == reply.pending)
            && after.waiting - {conn} == server.waiting
            && after.session.meter == t.meter && after.session.phase == t.phase && after.session.answer == t.answer
            && after.session.violations == t.violations + (if reply.Raised? then [RelayFault] else []))
  {
    var after := Step(config, server, Arrive(conn, request));
    if conn !in server.waiting {
      assert after.waiting - {conn} == server.waiting;
    }
  }

  /** Only a connection that waits is answered, and then waits no more. */
  lemma {:induction false} CompleteExactly(config: Config, server: Server, conn: nat, outcome: ProviderOutcome)
    ensures var after := Step(config, server, Complete(conn, outcome));
      && (conn !in server.waiting ==> after == server)
      && (conn in server.waiting ==>
            var (t, reply) := Finished(config.snapshot, server.session, server.waiting[conn], outcome);
            && conn !in after.waiting && after.waiting == server.waiting - {conn}
            && after.session.meter == t.meter && after.session.phase == t.phase && after.session.answer == t.answer
            && after.session.violations == t.violations + (if reply.Raised? then [RelayFault] else []))
  {
  }

  function WithOne(s: Session, violation: Violation): Session { s.(violations := s.violations + [violation]) }

  /** What else can happen leaves one violation, or drops one pending completion, or seals the meter. */
  lemma {:induction false} OtherEvents(config: Config, server: Server, conn: nat)
    ensures
      && Step(config, server, Cancel(conn)) == server.(waiting := server.waiting - {conn})
      && Step(config, server, Stop) == server.(session := server.session.(
           meter := server.session.meter.(sealed := true)))
      && (conn in server.waiting ==>
            && Step(config, server, Garbled(conn)) == server && Step(config, server, Reset(conn)) == server
            && Step(config, server, Unsent(conn)) == server)
      && (conn !in server.waiting ==>
            && Step(config, server, Garbled(conn)).session == WithOne(server.session, BadFrame)
            && Step(config, server, Reset(conn)).session == WithOne(server.session, BrokenConnection)
            && Step(config, server, Unsent(conn)).session == WithOne(server.session, RelayFault))
  {
  }
}
