/**
 * src/enclave/relay/server.py: one metered session shared by any number of connections.
 * A completion is affordable when it is asked for and billed when the provider has answered, and
 * other connections are served in between, so asking and billing are separate steps.
 */
module Relay {
  import opened Metering
  import opened Numbers
  import opened Pricing
  import opened Sums
  import opened Wrappers

  datatype Phase = CREATED | READY | SUBMITTED | TERMINATED

  datatype ErrorCode =
    | OUT_OF_SEQUENCE | ALREADY_SUBMITTED | MALFORMED | UNPRICED_MODEL
    | CAP_EXHAUSTED | PROVIDER_ERROR | ENVIRONMENT_FAULT

  datatype Violation = StrippedFields | BadFrame | BrokenConnection | RelayFault

  datatype ModelField = Unnamed | NotAString | Named(name: string)

  /** What the environment answers to an action it accepts. */
  datatype Observation = Observation(terminal: bool, tokens: int)

  /**
   * A decoded frame. `banned` says that it carries fields the relay strips. A `None` for
   * `maxTokens` stands for a value that `int()` refuses, for `action` and `answer` one that is not
   * a string, for `observation` a sink that raises.
   */
  datatype Request =
    | Initialise(banned: bool)
    | Completions(banned: bool, messages: nat, messagesParse: bool, model: ModelField,
                  maxTokens: Option<int>, promptTokens: int)
    | Act(banned: bool, action: Option<string>, argumentsAreObject: bool, observation: Option<Observation>)
    | Submit(banned: bool, answer: Option<string>)

  /** A completion the provider is working on. */
  datatype Pending = Pending(model: string, promptTokens: int, maxTokens: int)

  datatype ProviderOutcome =
    | ProviderFailed
    | Completion(outputTokens: int, reportedInput: Option<int>, reportedOutput: Option<int>)

  datatype Reply =
    | Ready(spendCap: real, models: seq<string>)
    | Completed(inputTokens: int, outputTokens: int, remaining: real)
    | Observed(terminal: bool, remaining: real)
    | Accepted
    | Error(code: ErrorCode)
    | Suspended(pending: Pending)
    | Raised

  datatype Session = Session(
    meter: MeterState, phase: Phase, answer: Option<string>,
    actions: nat, terminalReached: bool, violations: seq<Violation>)

  function Exhaust(s: Session): Session {
    s.(phase := TERMINATED, meter := Sealed(s.meter))
  }

  // ----- Serving one request -----

  function Screened(s: Session, request: Request): Session {
    if request.banned then s.(violations := s.violations + [StrippedFields]) else s
  }

  /** A request up to its reply, or up to the point where it waits for the provider. */
  function Served(snapshot: PriceSnapshot, defaultModel: string, before: Session, request: Request): (Session, Reply) {
    var s := Screened(before, request);
    if request.Initialise? then (s.(phase := READY), Ready(s.meter.spendCap, Offered(snapshot)))
    else if s.phase == CREATED then (s, Error(OUT_OF_SEQUENCE))
    else if s.answer.Some? then (s, Error(ALREADY_SUBMITTED))
    else match request
      case Completions(_, _, _, _, _, _) => AskedFor(snapshot, defaultModel, s, request)
      case Act(_, _, _, _) => Acted(snapshot, s, request)
      case Submit(_, answer) =>
        if answer.None? then (s, Error(MALFORMED))
        else (s.(answer := answer, phase := SUBMITTED), Accepted)
  }

  function Chosen(snapshot: PriceSnapshot, defaultModel: string, model: ModelField): Result<string, ErrorCode> {
    match model
    case Unnamed => Success(defaultModel)
    case NotAString => Failure(MALFORMED)
    case Named(name) => if Selectable(snapshot, name) then Success(name) else Failure(UNPRICED_MODEL)
  }

  function AskedFor(snapshot: PriceSnapshot, defaultModel: string, s: Session, request: Request): (Session, Reply)
    requires request.Completions?
  {
    if request.messages == 0 || !request.messagesParse then (s, Error(MALFORMED)) else
    match Chosen(snapshot, defaultModel, request.model)
    case Failure(code) => (s, Error(code))
    case Success(model) =>
      if request.maxTokens.None? then (s, Raised) else
      var pending := Pending(model, request.promptTokens, request.maxTokens.value);
      match Affords(snapshot, s.meter, model, pending.promptTokens, pending.maxTokens)
      case Failure(_) => (s, Raised)
      case Success(false) => (Exhaust(s), Error(CAP_EXHAUSTED))
      case Success(true) => (s, Suspended(pending))
  }

  /** The provider's answer to a pending completion: billed before it is delivered. */
  function Finished(snapshot: PriceSnapshot, s: Session, pending: Pending, outcome: ProviderOutcome): (Session, Reply) {
    if outcome.ProviderFailed? then (s, Error(PROVIDER_ERROR)) else
    var input := MaxInt(pending.promptTokens, OrZero(outcome.reportedInput));
    var output := MaxInt(outcome.outputTokens, OrZero(outcome.reportedOutput));
    match Lookup(snapshot, pending.model)
    case Failure(_) => (s, Raised)
    case Success(price) =>
      var (meter, charge) := AfterCharge(s.meter, price, input, output);
      Settled(s.(meter := meter), charge, Completed(input, output, meter.Remaining()))
  }

  /** Reaching the cap ends the session; any other refusal by the meter escapes. */
  function Settled(s: Session, charge: ChargeOutcome, reply: Reply): (Session, Reply) {
    match charge
    case Charged(_, _) => (s, reply)
    case SpendCapExceeded => (Exhaust(s), Error(CAP_EXHAUSTED))
    case MeterSealed => (s, Raised)
    case NegativeTokenCount => (s, Raised)
  }

  function Acted(snapshot: PriceSnapshot, s: Session, request: Request): (Session, Reply)
    requires request.Act?
  {
    if request.action.None? || request.action.value == "" then (s, Error(MALFORMED))
    else if !request.argumentsAreObject then (s, Error(MALFORMED))
    else if request.observation.None? then (s, Error(ENVIRONMENT_FAULT))
    else
      var seen := request.observation.value;
      var s := s.(actions := s.actions + 1, terminalReached := s.terminalReached || seen.terminal);
      match Lookup(snapshot, OBSERVATION_CHANNEL)
      case Failure(_) => (s, Raised)
      case Success(price) =>
        var (meter, charge) := AfterCharge(s.meter, price, seen.tokens, 0);
        Settled(s.(meter := meter), charge, Observed(seen.terminal, meter.Remaining()))
  }

  class RelaySession {
    const meter: Meter
    const defaultModel: string
    var phase: Phase
    var answer: Option<string>
    var actions: nat
    var terminalReached: bool
    var violations: seq<Violation>

    constructor (meter: Meter, defaultModel: string)
      ensures this.meter == meter && this.defaultModel == defaultModel
      ensures View() == Session(meter.View(), CREATED, None, 0, false, [])
    {
      this.meter, this.defaultModel := meter, defaultModel;
      phase, answer, actions, terminalReached, violations := CREATED, None, 0, false, [];
    }

    ghost function View(): Session
      reads this, meter
    {
      Session(meter.View(), phase, answer, actions, terminalReached, violations)
    }

    method Dispatch(request: Request) returns (reply: Reply)
      modifies this, meter
      ensures (View(), reply) == Served(meter.snapshot, defaultModel, old(View()), request)
    {
      if request.banned {
        violations := violations + [StrippedFields];
      }
      if request.Initialise? {
        phase := READY;
        return Ready(meter.spendCap, Offered(meter.snapshot));
      }
      if phase == CREATED {
        return Error(OUT_OF_SEQUENCE);
      }
      if answer.Some? {
        return Error(ALREADY_SUBMITTED);
      }
      if request.Completions? {
        reply := BeginCompletion(request);
      } else if request.Act? {
        reply := PerformAct(request);
      } else {
        reply := AcceptAnswer(request);
      }
    }

    method BeginCompletion(request: Request) returns (reply: Reply)
      requires request.Completions?
      modifies this, meter
      ensures (View(), reply) == AskedFor(meter.snapshot, defaultModel, old(View()), request)
    {
      if request.messages == 0 || !request.messagesParse {
        return Error(MALFORMED);
      }
      var model := Chosen(meter.snapshot, defaultModel, request.model);
      if model.Failure? {
        return Error(model.error);
      }
      if request.maxTokens.None? {
        return Raised;
      }
      var affordable := meter.Affordable(model.value, request.promptTokens, request.maxTokens.value);
      if affordable.Failure? {
        return Raised;
      }
      if !affordable.value {
        reply := EndSession();
        return;
      }
      return Suspended(Pending(model.value, request.promptTokens, request.maxTokens.value));
    }

    method FinishCompletion(pending: Pending, outcome: ProviderOutcome) returns (reply: Reply)
      modifies this, meter
      ensures (View(), reply) == Finished(meter.snapshot, old(View()), pending, outcome)
    {
      if outcome.ProviderFailed? {
        return Error(PROVIDER_ERROR);
      }
      var input := MaxInt(pending.promptTokens, OrZero(outcome.reportedInput));
      var output := MaxInt(outcome.outputTokens, OrZero(outcome.reportedOutput));
      var price := Lookup(meter.snapshot, pending.model);
      if price.Failure? {
        return Raised;
      }
      var charge := meter.Charge(price.value, input, output);
      var remaining := meter.Remaining();
      reply := Settle(charge, Completed(input, output, remaining));
    }

    method Settle(charge: ChargeOutcome, paid: Reply) returns (reply: Reply)
      modifies this, meter
      ensures (View(), reply) == Settled(old(View()), charge, paid)
    {
      match charge
      case Charged(_, _) => reply := paid;
      case SpendCapExceeded => reply := EndSession();
      case MeterSealed => reply := Raised;
      case NegativeTokenCount => reply := Raised;
    }

    method PerformAct(request: Request) returns (reply: Reply)
      requires request.Act?
      modifies this, meter
      ensures (View(), reply) == Acted(meter.snapshot, old(View()), request)
    {
      if request.action.None? || request.action.value == "" {
        return Error(MALFORMED);
      }
      if !request.argumentsAreObject {
        return Error(MALFORMED);
      }
      if request.observation.None? {
        return Error(ENVIRONMENT_FAULT);
      }
      var seen := request.observation.value;
      actions := actions + 1;
      terminalReached := terminalReached || seen.terminal;
      var price := Lookup(meter.snapshot, OBSERVATION_CHANNEL);
      if price.Failure? {
        return Raised;
      }
      var charge := meter.Charge(price.value, seen.tokens, 0);
      var remaining := meter.Remaining();
      reply := Settle(charge, Observed(seen.terminal, remaining));
    }

    method AcceptAnswer(request: Request) returns (reply: Reply)
      requires request.Submit?
      modifies this
      ensures request.answer.None? ==> View() == old(View()) && reply == Error(MALFORMED)
      ensures request.answer.Some? ==>
        View() == old(View()).(answer := request.answer, phase := SUBMITTED) && reply == Accepted
    {
      if request.answer.None? {
        return Error(MALFORMED);
      }
      answer := request.answer;
      phase := SUBMITTED;
      return Accepted;
    }

    method EndSession() returns (reply: Reply)
      modifies this, meter
      ensures View() == Exhaust(old(View())) && reply == Error(CAP_EXHAUSTED)
    {
      phase := TERMINATED;
      meter.Seal();
      return Error(CAP_EXHAUSTED);
    }

    method AddViolation(violation: Violation)
      modifies this
      ensures View() == old(View()).(violations := old(violations) + [violation])
    {
      violations := violations + [violation];
    }
  }

  // ----- Serving many connections -----

  /** The session and, per connection, the completion it waits for. */
  datatype Server = Server(session: Session, waiting: map<nat, Pending>)

  /**
   * What can happen next. A connection reads its next frame only after its last reply, so frames
   * sent while it waits are not seen. A reply that cannot be written is followed by `Reset`, one that
   * cannot be encoded by `Unsent`. `Stop` is the runner sealing the meter when the container ends.
   */
  datatype Event =
    | Arrive(conn: nat, request: Request)
    | Complete(conn: nat, outcome: ProviderOutcome)
    | Garbled(conn: nat)
    | Reset(conn: nat)
    | Cancel(conn: nat)
    | Unsent(conn: nat)
    | Stop

  datatype Config = Config(snapshot: PriceSnapshot, defaultModel: string, spendCap: real)

  function WithViolation(s: Session, v: Violation): Session {
    s.(violations := s.violations + [v])
  }

  /** A reply leaves the session as it is, except that an escaping exception is recorded. */
  function Delivered(s: Session, reply: Reply): Session {
    if reply.Raised? then WithViolation(s, RelayFault) else s
  }

  function Step(config: Config, server: Server, event: Event): Server {
    match event
    case Arrive(conn, request) =>
      if conn in server.waiting then server else
      var (session, reply) := Served(config.snapshot, config.defaultModel, server.session, request);
      Server(Delivered(session, reply),
             if reply.Suspended? then server.waiting[conn := reply.pending] else server.waiting)
    case Complete(conn, outcome) =>
      if conn !in server.waiting then server else
      var (session, reply) := Finished(config.snapshot, server.session, server.waiting[conn], outcome);
      Server(Delivered(session, reply), server.waiting - {conn})
    case Garbled(conn) =>
      if conn in server.waiting then server
      else server.(session := WithViolation(server.session, BadFrame))
    case Reset(conn) =>
      if conn in server.waiting then server
      else server.(session := WithViolation(server.session, BrokenConnection))
    case Cancel(conn) => server.(waiting := server.waiting - {conn})
    case Unsent(conn) =>
      if conn in server.waiting then server
      else server.(session := WithViolation(server.session, RelayFault))
    case Stop => server.(session := server.session.(meter := Sealed(server.session.meter)))
  }

  function Start(config: Config): Server {
    Server(Session(MeterState(config.spendCap, 0, [], false), CREATED, None, 0, false, []), map[])
  }

  function Run(config: Config, from: Server, events: seq<Event>): Server {
    if events == [] then from
    else Step(config, Run(config, from, events[..|events| - 1]), events[|events| - 1])
  }

  class RelayServer {
    const session: RelaySession
    var waiting: map<nat, Pending>

    constructor (session: RelaySession)
      ensures this.session == session && waiting == map[]
    {
      this.session, waiting := session, map[];
    }

    ghost function View(): Server
      reads this, session, session.meter
    {
      Server(session.View(), waiting)
    }

    method Deliver(reply: Reply)
      modifies session
      ensures session.View() == Delivered(old(session.View()), reply)
    {
      if reply.Raised? {
        session.AddViolation(RelayFault);
      }
    }

    method Handle(event: Event)
      modifies this, session, session.meter
      ensures View() ==
        Step(Config(session.meter.snapshot, session.defaultModel, session.meter.spendCap), old(View()), event)
    {
      match event
      case Arrive(conn, request) =>
        if conn !in waiting {
          var reply := session.Dispatch(request);
          if reply.Suspended? {
            waiting := waiting[conn := reply.pending];
          }
          Deliver(reply);
        }
      case Complete(conn, outcome) =>
        if conn in waiting {
          var reply := session.FinishCompletion(waiting[conn], outcome);
          waiting := waiting - {conn};
          Deliver(reply);
        }
      case Garbled(conn) =>
        if conn !in waiting {
          session.AddViolation(BadFrame);
        }
      case Reset(conn) =>
        if conn !in waiting {
          session.AddViolation(BrokenConnection);
        }
      case Cancel(conn) =>
        waiting := waiting - {conn};
      case Unsent(conn) =>
        if conn !in waiting {
          session.AddViolation(RelayFault);
        }
      case Stop =>
        session.meter.Seal();
    }
  }

  // ----- What every step keeps -----

  /** The bill is exact and under the cap it started with. */
  ghost predicate Safe(config: Config, s: Session) {
    Exact(config.snapshot, s.meter) && s.meter.spendCap == config.spendCap
  }

  lemma FinishedKeepsSafe(config: Config, s: Session, pending: Pending, outcome: ProviderOutcome)
    requires Safe(config, s)
    ensures Safe(config, Finished(config.snapshot, s, pending, outcome).0)
  {
    if outcome.Completion? && Lookup(config.snapshot, pending.model).Success? {
      ChargeKeepsExact(config.snapshot, s.meter, Lookup(config.snapshot, pending.model).value,
                       MaxInt(pending.promptTokens, OrZero(outcome.reportedInput)),
                       MaxInt(outcome.outputTokens, OrZero(outcome.reportedOutput)));
    }
  }

  /** Serving a request seals the meter, charges it for one observation, or leaves it alone. */
  lemma ServedMeter(config: Config, s: Session, request: Request)
    ensures var m := Served(config.snapshot, config.defaultModel, s, request).0.meter;
      || m == s.meter
      || m == Sealed(s.meter)
      || (&& request.Act? && request.observation.Some?
          && Lookup(config.snapshot, OBSERVATION_CHANNEL).Success?
          && m == AfterCharge(s.meter, Lookup(config.snapshot, OBSERVATION_CHANNEL).value,
                              request.observation.value.tokens, 0).0)
  {
    var screened := Screened(s, request);
    if request.Act? {
      ActedMeter(config.snapshot, screened, request);
    } else if request.Completions? {
      AskedForMeter(config, screened, request);
    }
  }

  lemma ActedMeter(snapshot: PriceSnapshot, s: Session, request: Request)
    requires request.Act?
    ensures var m := Acted(snapshot, s, request).0.meter;
      || m == s.meter
      || (&& request.observation.Some? && Lookup(snapshot, OBSERVATION_CHANNEL).Success?
          && m == AfterCharge(s.meter, Lookup(snapshot, OBSERVATION_CHANNEL).value,
                              request.observation.value.tokens, 0).0)
  {
  }

  lemma AskedForMeter(config: Config, s: Session, request: Request)
    requires request.Completions?
    ensures var m := AskedFor(config.snapshot, config.defaultModel, s, request).0.meter;
      m == s.meter || m == Sealed(s.meter)
  {
  }

  lemma ServedKeepsSafe(config: Config, s: Session, request: Request)
    requires Safe(config, s)
    ensures Safe(config, Served(config.snapshot, config.defaultModel, s, request).0)
  {
    ServedMeter(config, s, request);
    if request.Act? && request.observation.Some? && Lookup(config.snapshot, OBSERVATION_CHANNEL).Success? {
      ChargeKeepsExact(config.snapshot, s.meter, Lookup(config.snapshot, OBSERVATION_CHANNEL).value,
                       request.observation.value.tokens, 0);
    }
  }

  lemma StepKeepsSafe(config: Config, server: Server, event: Event)
    requires Safe(config, server.session)
    ensures Safe(config, Step(config, server, event).session)
  {
    match event
    case Arrive(conn, request) => ServedKeepsSafe(config, server.session, request);
    case Complete(conn, outcome) =>
      if conn in server.waiting {
        FinishedKeepsSafe(config, server.session, server.waiting[conn], outcome);
      }
    case Garbled(_) =>
    case Reset(_) =>
    case Cancel(_) =>
    case Unsent(_) =>
    case Stop =>
  }

  lemma {:induction false} RunKeepsSafe(config: Config, from: Server, events: seq<Event>)
    requires Safe(config, from.session)
    ensures Safe(config, Run(config, from, events).session)
  {
    if events != [] {
      RunKeepsSafe(config, from, events[..|events| - 1]);
      StepKeepsSafe(config, Run(config, from, events[..|events| - 1]), events[|events| - 1]);
    }
  }

  /**
   * The bill is the sum of the prices of the logged calls; an unsealed meter is below its cap; a bill
   * that has reached the cap was below it before its last call, so it exceeds it by less than that call.
   */
  ghost predicate WithinOneCall(config: Config, m: MeterState) {
    && m.spent == TotalCost(m.calls)
    && (!m.sealed ==> Dollars(m.spent) < config.spendCap)
    && (m.AtCap() ==>
          m.sealed && m.calls != [] && Dollars(m.spent - CostOf(m.calls[|m.calls| - 1])) < config.spendCap)
  }

  lemma SafeIsWithinOneCall(config: Config, s: Session)
    requires Safe(config, s) && config.spendCap > 0.0
    ensures WithinOneCall(config, s.meter)
  {
    var m := s.meter;
    if m.AtCap() {
      assert m.calls != [];
      assert Dollars(TotalCost(m.calls[..|m.calls| - 1])) < m.spendCap;
    }
  }

  /** Every interleaving, however many connections, stays within one call of the cap. */
  lemma CapHoldsToOneCall(config: Config, events: seq<Event>)
    requires config.spendCap > 0.0
    ensures WithinOneCall(config, Run(config, Start(config), events).session.meter)
  {
    RunKeepsSafe(config, Start(config), events);
    SafeIsWithinOneCall(config, Run(config, Start(config), events).session);
  }

  /** Half-even rounding of every call moves the bill by at most half a quantum a call. */
  ghost predicate NearExact(m: MeterState) {
    Abs(Dollars(m.spent) - TotalExact(m.calls)) <= |m.calls| as real * 0.5 / QUANTA_PER_DOLLAR
  }

  lemma SafeIsNearExact(config: Config, s: Session)
    requires Safe(config, s)
    ensures NearExact(s.meter)
  {
    TotalNear(s.meter.calls);
  }

  lemma MeteredExactly(config: Config, events: seq<Event>)
    requires config.spendCap > 0.0
    ensures NearExact(Run(config, Start(config), events).session.meter)
  {
    RunKeepsSafe(config, Start(config), events);
    SafeIsNearExact(config, Run(config, Start(config), events).session);
  }

  // ----- What never changes again -----

  /** What a session can only add to: the bill once sealed, the answer, the recorded violations. */
  ghost predicate Grows(s: Session, t: Session) {
    && (s.meter.sealed ==> t.meter == s.meter)
    && s.meter.calls <= t.meter.calls
    && (s.answer.Some? ==> t.answer == s.answer)
    && s.violations <= t.violations
    && s.actions <= t.actions
    && (s.terminalReached ==> t.terminalReached)
  }

  lemma {:induction false} ServedGrows(config: Config, s: Session, request: Request)
    ensures Grows(s, Served(config.snapshot, config.defaultModel, s, request).0)
  {
    var screened := Screened(s, request);
    if request.Act? {
      assert Grows(screened, Acted(config.snapshot, screened, request).0);
    } else if request.Completions? {
      assert Grows(screened, AskedFor(config.snapshot, config.defaultModel, screened, request).0);
    }
  }

  lemma FinishedGrows(config: Config, s: Session, pending: Pending, outcome: ProviderOutcome)
    ensures Grows(s, Finished(config.snapshot, s, pending, outcome).0)
  {
  }

  lemma StepGrows(config: Config, server: Server, event: Event)
    ensures Grows(server.session, Step(config, server, event).session)
  {
    match event
    case Arrive(conn, request) => ServedGrows(config, server.session, request);
    case Complete(conn, outcome) =>
      if conn in server.waiting {
        FinishedGrows(config, server.session, server.waiting[conn], outcome);
      }
    case Garbled(_) =>
    case Reset(_) =>
    case Cancel(_) =>
    case Unsent(_) =>
    case Stop =>
  }

  /** Over every run a sealed bill is final, the answer is write-once and no violation is forgotten. */
  lemma {:induction false} RunGrows(config: Config, from: Server, events: seq<Event>)
    ensures Grows(from.session, Run(config, from, events).session)
  {
    if events != [] {
      var before := Run(config, from, events[..|events| - 1]);
      RunGrows(config, from, events[..|events| - 1]);
      StepGrows(config, before, events[|events| - 1]);
      PrefixTransitive(from.session.violations, before.session.violations,
                       Run(config, from, events).session.violations);
      PrefixTransitive(from.session.meter.calls, before.session.meter.calls,
                       Run(config, from, events).session.meter.calls);
    }
  }

  lemma PrefixTransitive<T>(a: seq<T>, b: seq<T>, c: seq<T>)
    requires a <= b && b <= c
    ensures a <= c
  {
  }

  /** After `initialise`, the phase tells whether an answer is held, but not for good. */
  lemma PhaseIsNotMonotone(config: Config, s: Session)
    requires s.answer.Some? && s.phase == SUBMITTED
    ensures Served(config.snapshot, config.defaultModel, s, Initialise(false)).0 == s.(phase := READY)
  {
  }

  /** A completion may name exactly the models that `initialise` told of. */
  lemma OfferedIsAccepted(config: Config, s: Session, model: string)
    ensures var reply := Served(config.snapshot, config.defaultModel, s, Initialise(false)).1;
      && reply.Ready?
      && Chosen(config.snapshot, config.defaultModel, Named(model))
         == if model in reply.models then Success(model) else Failure(UNPRICED_MODEL)
  {
    OfferedIsSelectable(config.snapshot, model);
  }

  /** Before `initialise` nothing is billed, nothing is asked of the provider and no answer is taken. */
  ghost predicate Untouched(server: Server) {
    var s := server.session;
    && s.phase == CREATED && s.answer.None? && s.actions == 0
    && s.meter.calls == [] && s.meter.spent == 0 && server.waiting == map[]
  }

  predicate Initialises(event: Event) { event.Arrive? && event.request.Initialise? }

  lemma {:induction false} NothingBeforeInitialise(config: Config, events: seq<Event>)
    requires forall e :: e in events ==> !Initialises(e)
    ensures Untouched(Run(config, Start(config), events))
  {
    if events != [] {
      var event := events[|events| - 1];
      NothingBeforeInitialise(config, events[..|events| - 1]);
      assert !Initialises(event);
      UntouchedStays(config, Run(config, Start(config), events[..|events| - 1]), event);
    }
  }

  lemma UntouchedStays(config: Config, server: Server, event: Event)
    requires Untouched(server) && !Initialises(event)
    ensures Untouched(Step(config, server, event))
  {
  }

  /** An answered session takes no request that costs anything: only what is pending can still be billed. */
  lemma AnsweredTakesNothing(config: Config, s: Session, request: Request)
    requires s.answer.Some?
    ensures var (t, reply) := Served(config.snapshot, config.defaultModel, s, request);
      && t.meter == s.meter && t.answer == s.answer && t.actions == s.actions
      && (reply.Ready? || reply == Error(ALREADY_SUBMITTED) || reply == Error(OUT_OF_SEQUENCE))
  {
  }

  /** What can still be billed: the calls logged and the completions pending. */
  function Billable(server: Server): nat { |server.session.meter.calls| + |server.waiting| }

  lemma WithoutOne(waiting: map<nat, Pending>, conn: nat)
    ensures |waiting - {conn}| == |waiting| - if conn in waiting then 1 else 0
  {
    assert (waiting - {conn}).Keys == waiting.Keys - {conn};
    assert |waiting| == |waiting.Keys| && |waiting - {conn}| == |(waiting - {conn}).Keys|;
  }

  lemma {:induction false} FinishedBillsOne(config: Config, s: Session, pending: Pending, outcome: ProviderOutcome)
    ensures var t := Finished(config.snapshot, s, pending, outcome).0;
      t.answer == s.answer && |t.meter.calls| <= |s.meter.calls| + 1
  {
  }

  lemma {:induction false} ArrivesAnswered(config: Config, server: Server, conn: nat, request: Request)
    requires server.session.answer.Some?
    ensures var after := Step(config, server, Arrive(conn, request));
      && after.session.answer == server.session.answer && after.session.meter == server.session.meter
      && after.waiting == server.waiting
  {
    AnsweredTakesNothing(config, server.session, request);
  }

  lemma {:induction false} CompletesAnswered(config: Config, server: Server, conn: nat, outcome: ProviderOutcome)
    ensures var after := Step(config, server, Complete(conn, outcome));
      after.session.answer == server.session.answer && Billable(after) <= Billable(server)
  {
    WithoutOne(server.waiting, conn);
    if conn in server.waiting {
      FinishedBillsOne(config, server.session, server.waiting[conn], outcome);
    }
  }

  lemma {:induction false} StepOnceAnswered(config: Config, server: Server, event: Event)
    requires server.session.answer.Some?
    ensures Step(config, server, event).session.answer == server.session.answer
    ensures Billable(Step(config, server, event)) <= Billable(server)
  {
    match event
    case Arrive(conn, request) => ArrivesAnswered(config, server, conn, request);
    case Complete(conn, outcome) => CompletesAnswered(config, server, conn, outcome);
    case Cancel(conn) => WithoutOne(server.waiting, conn);
    case Garbled(_) =>
    case Reset(_) =>
    case Unsent(_) =>
    case Stop =>
  }

  /** From an answer on, over every run, no more calls are billed than were pending. */
  lemma {:induction false} AnsweredBillsPending(config: Config, from: Server, events: seq<Event>)
    requires from.session.answer.Some?
    ensures Run(config, from, events).session.answer == from.session.answer
    ensures Billable(Run(config, from, events)) <= Billable(from)
  {
    if events != [] {
      AnsweredBillsPending(config, from, events[..|events| - 1]);
      StepOnceAnswered(config, Run(config, from, events[..|events| - 1]), events[|events| - 1]);
    }
  }

  /** Each leaves a violation: a frame with banned fields, an unreadable one, a broken connection, a lost reply. */
  predicate Offends(server: Server, event: Event) {
    match event
    case Arrive(conn, request) => conn !in server.waiting && request.banned
    case Garbled(conn) => conn !in server.waiting
    case Reset(conn) => conn !in server.waiting
    case Unsent(conn) => conn !in server.waiting
    case _ => false
  }

  lemma OffenceIsRecorded(config: Config, server: Server, event: Event)
    requires Offends(server, event)
    ensures Step(config, server, event).session.violations != []
  {
    if event.Arrive? {
      ScreenedFirst(config, server.session, event.request);
    }
  }

  lemma ScreenedFirst(config: Config, s: Session, request: Request)
    ensures Screened(s, request).violations
      <= Served(config.snapshot, config.defaultModel, s, request).0.violations
  {
  }

  // ----- One connection, honest bills -----

  /** Billed within the quote: no more prompt than counted, no more output than asked for. */
  predicate WithinQuote(pending: Pending, outcome: ProviderOutcome) {
    outcome.Completion? ==>
      && OrZero(outcome.reportedInput) <= pending.promptTokens
      && outcome.outputTokens <= pending.maxTokens
      && OrZero(outcome.reportedOutput) <= pending.maxTokens
  }

  /** Every event is on connection `conn`, and every completion is billed within its quote. */
  ghost predicate HonestAlone(config: Config, from: Server, events: seq<Event>, conn: nat)
    decreases |events|
  {
    events == [] ||
    (var before := Run(config, from, events[..|events| - 1]);
     var event := events[|events| - 1];
     && HonestAlone(config, from, events[..|events| - 1], conn)
     && (event.Stop? || event.conn == conn)
     && (event.Complete? && conn in before.waiting ==> WithinQuote(before.waiting[conn], event.outcome)))
  }

  predicate LastIsObservation(m: MeterState) {
    m.calls != [] && m.calls[|m.calls| - 1].price.model == OBSERVATION_CHANNEL
  }

  /** While its one completion is pending, the meter still affords it. */
  ghost predicate StillAffords(config: Config, server: Server, conn: nat) {
    && server.waiting.Keys <= {conn}
    && (conn in server.waiting ==>
          var p := server.waiting[conn];
          Affords(config.snapshot, server.session.meter, p.model, p.promptTokens, p.maxTokens) == Success(true))
    && OnlyObservationsOverspend(config, server.session.meter)
  }

  predicate OnlyObservationsOverspend(config: Config, m: MeterState) {
    Dollars(m.spent) > config.spendCap ==> LastIsObservation(m)
  }

  lemma ServedWithinCap(config: Config, s: Session, request: Request)
    requires s.meter.spendCap == config.spendCap && OnlyObservationsOverspend(config, s.meter)
    ensures OnlyObservationsOverspend(config, Served(config.snapshot, config.defaultModel, s, request).0.meter)
  {
    ServedMeter(config, s, request);
    if request.Act? && request.observation.Some? && Lookup(config.snapshot, OBSERVATION_CHANNEL).Success? {
      ObservationLast(s.meter, Lookup(config.snapshot, OBSERVATION_CHANNEL).value, request.observation.value.tokens);
    }
  }

  lemma ObservationLast(m: MeterState, price: ModelPrice, tokens: int)
    requires price.model == OBSERVATION_CHANNEL
    ensures var n := AfterCharge(m, price, tokens, 0).0; n == m || LastIsObservation(n)
  {
  }

  lemma SuspendedIsAffordable(config: Config, s: Session, request: Request)
    ensures var (t, reply) := Served(config.snapshot, config.defaultModel, s, request);
      reply.Suspended? ==>
        Affords(config.snapshot, t.meter, reply.pending.model, reply.pending.promptTokens, reply.pending.maxTokens)
          == Success(true)
  {
  }

  lemma FinishedWithinCap(config: Config, s: Session, pending: Pending, outcome: ProviderOutcome)
    requires ValidSnapshot(config.snapshot) && Safe(config, s)
    requires Affords(config.snapshot, s.meter, pending.model, pending.promptTokens, pending.maxTokens) == Success(true)
    requires WithinQuote(pending, outcome)
    ensures var m := Finished(config.snapshot, s, pending, outcome).0.meter;
      m == s.meter || Dollars(m.spent) <= config.spendCap
  {
    if outcome.Completion? && !s.meter.sealed {
      var input := MaxInt(pending.promptTokens, OrZero(outcome.reportedInput));
      var output := MaxInt(outcome.outputTokens, OrZero(outcome.reportedOutput));
      if output >= 0 {
        AffordableStaysWithin(config.snapshot, s.meter, pending.model,
                              pending.promptTokens, pending.maxTokens, input, output);
      }
    }
  }

  lemma StepStillAffords(config: Config, server: Server, event: Event, conn: nat)
    requires ValidSnapshot(config.snapshot) && Safe(config, server.session)
    requires StillAffords(config, server, conn)
    requires event.Stop? || event.conn == conn
    requires event.Complete? && conn in server.waiting ==> WithinQuote(server.waiting[conn], event.outcome)
    ensures StillAffords(config, Step(config, server, event), conn)
  {
    match event
    case Arrive(_, request) =>
      ServedWithinCap(config, server.session, request);
      SuspendedIsAffordable(config, server.session, request);
    case Complete(_, outcome) =>
      if conn in server.waiting {
        FinishedWithinCap(config, server.session, server.waiting[conn], outcome);
      }
    case Garbled(_) =>
    case Reset(_) =>
    case Cancel(_) =>
    case Unsent(_) =>
    case Stop =>
  }

  /**
   * On one connection, completions billed within their quotes never take the bill above the cap:
   * if it is above, the last call was an observation.
   */
  lemma {:induction false} AloneStaysWithinCap(config: Config, events: seq<Event>, conn: nat)
    requires config.spendCap > 0.0 && ValidSnapshot(config.snapshot)
    requires HonestAlone(config, Start(config), events, conn)
    ensures StillAffords(config, Run(config, Start(config), events), conn)
    ensures var m := Run(config, Start(config), events).session.meter;
      Dollars(m.spent) > config.spendCap ==> LastIsObservation(m)
  {
    if events != [] {
      AloneStaysWithinCap(config, events[..|events| - 1], conn);
      RunKeepsSafe(config, Start(config), events[..|events| - 1]);
      StepStillAffords(config, Run(config, Start(config), events[..|events| - 1]), events[|events| - 1], conn);
    }
  }

  // ----- Several connections -----

  /** The most a pending completion costs when it is billed within its quote. */
  function QuoteOf(snapshot: PriceSnapshot, p: Pending): int {
    var price := Lookup(snapshot, p.model);
    if price.Success? && p.promptTokens >= 0 && p.maxTokens >= 0 then
      Price(price.value, p.promptTokens, p.maxTokens)
    else 0
  }

  function Quotes(snapshot: PriceSnapshot, waiting: map<nat, Pending>): map<nat, int> {
    map conn | conn in waiting :: QuoteOf(snapshot, waiting[conn])
  }

  /** What is spent and what is pending, in quanta. */
  ghost function Committed(config: Config, server: Server): int {
    server.session.meter.spent + SumValues(Quotes(config.snapshot, server.waiting))
  }

  /** An event of a run that reserves: a new quote fits beside the pending ones, and bills are honest. */
  ghost predicate Reserving(config: Config, server: Server, event: Event) {
    match event
    case Arrive(conn, request) =>
      conn !in server.waiting ==>
        var (session, reply) := Served(config.snapshot, config.defaultModel, server.session, request);
        if reply.Suspended? then
          Dollars(Committed(config, server) + QuoteOf(config.snapshot, reply.pending)) <= config.spendCap
        else session.meter.calls == server.session.meter.calls
    case Complete(conn, outcome) => conn in server.waiting ==> WithinQuote(server.waiting[conn], outcome)
    case _ => true
  }

  ghost predicate ReservesAt(config: Config, events: seq<Event>, k: nat)
    requires k < |events|
  {
    Reserving(config, Run(config, Start(config), events[..k]), events[k])
  }

  ghost predicate Reserves(config: Config, events: seq<Event>) {
    forall k :: 0 <= k < |events| ==> ReservesAt(config, events, k)
  }

  lemma ReservesBefore(config: Config, events: seq<Event>, n: nat)
    requires n <= |events| && Reserves(config, events)
    ensures Reserves(config, events[..n])
  {
    forall k | 0 <= k < n ensures ReservesAt(config, events[..n], k) {
      assert events[..n][..k] == events[..k];
      assert ReservesAt(config, events, k);
    }
  }

  lemma QuoteNonnegative(snapshot: PriceSnapshot, p: Pending)
    requires ValidSnapshot(snapshot)
    ensures QuoteOf(snapshot, p) >= 0
  {
    if QuoteOf(snapshot, p) != 0 {
      PriceMonotone(Lookup(snapshot, p.model).value, p.promptTokens, p.maxTokens, p.promptTokens, p.maxTokens);
    }
  }

  lemma QuoteAdded(config: Config, server: Server, conn: nat, p: Pending)
    requires conn !in server.waiting
    ensures Committed(config, server.(waiting := server.waiting[conn := p]))
         == Committed(config, server) + QuoteOf(config.snapshot, p)
  {
    var quotes := Quotes(config.snapshot, server.waiting);
    assert Quotes(config.snapshot, server.waiting[conn := p]) == quotes[conn := QuoteOf(config.snapshot, p)];
    SumValuesUpdate(quotes, conn, QuoteOf(config.snapshot, p));
  }

  lemma QuoteReleased(config: Config, server: Server, conn: nat)
    ensures Committed(config, server.(waiting := server.waiting - {conn}))
         == Committed(config, server)
            - if conn in server.waiting then QuoteOf(config.snapshot, server.waiting[conn]) else 0
  {
    var quotes := Quotes(config.snapshot, server.waiting);
    assert Quotes(config.snapshot, server.waiting - {conn}) == quotes - {conn};
    if conn in server.waiting {
      SumValuesRemove(quotes, conn);
    } else {
      assert quotes - {conn} == quotes;
    }
  }

  lemma {:induction false} CommittedCoversSpend(config: Config, session: Session, waiting: map<nat, Pending>)
    requires ValidSnapshot(config.snapshot)
    ensures session.meter.spent <= Committed(config, Server(session, waiting))
    decreases waiting.Keys
  {
    if waiting == map[] {
      assert Quotes(config.snapshot, waiting) == map[];
    } else {
      var conn :| conn in waiting;
      assert (waiting - {conn}).Keys < waiting.Keys;
      CommittedCoversSpend(config, session, waiting - {conn});
      QuoteReleased(config, Server(session, waiting), conn);
      QuoteNonnegative(config.snapshot, waiting[conn]);
    }
  }

  /** An honest bill is at most the quote it was given. */
  lemma BilledWithinQuote(config: Config, s: Session, p: Pending, outcome: ProviderOutcome)
    requires ValidSnapshot(config.snapshot) && WithinQuote(p, outcome)
    ensures Finished(config.snapshot, s, p, outcome).0.meter.spent <= s.meter.spent + QuoteOf(config.snapshot, p)
  {
    QuoteNonnegative(config.snapshot, p);
    var price := Lookup(config.snapshot, p.model);
    if outcome.Completion? && price.Success? && !s.meter.sealed {
      var input := MaxInt(p.promptTokens, OrZero(outcome.reportedInput));
      var output := MaxInt(outcome.outputTokens, OrZero(outcome.reportedOutput));
      if input >= 0 && output >= 0 {
        PriceMonotone(price.value, input, output, p.promptTokens, p.maxTokens);
        HalfEvenWhole(s.meter.spent + Price(price.value, input, output));
      }
    }
  }

  /** A request that bills nothing leaves the spend alone, and a suspended one the whole meter. */
  lemma ServedSpend(config: Config, s: Session, request: Request)
    ensures var (t, reply) := Served(config.snapshot, config.defaultModel, s, request);
      && (reply.Suspended? ==> t.meter == s.meter)
      && (t.meter.calls == s.meter.calls ==> t.meter.spent == s.meter.spent)
  {
    ServedMeter(config, s, request);
  }

  lemma {:induction false} StepReserves(config: Config, server: Server, event: Event)
    requires ValidSnapshot(config.snapshot) && Reserving(config, server, event)
    requires Dollars(Committed(config, server)) <= config.spendCap
    ensures Dollars(Committed(config, Step(config, server, event))) <= config.spendCap
  {
    match event
    case Arrive(conn, request) =>
      if conn !in server.waiting {
        var (session, reply) := Served(config.snapshot, config.defaultModel, server.session, request);
        ServedSpend(config, server.session, request);
        if reply.Suspended? {
          QuoteAdded(config, server, conn, reply.pending);
        }
      }
    case Complete(conn, outcome) =>
      if conn in server.waiting {
        BilledWithinQuote(config, server.session, server.waiting[conn], outcome);
        QuoteReleased(config, server, conn);
      }
    case Cancel(conn) =>
      QuoteReleased(config, server, conn);
      if conn in server.waiting {
        QuoteNonnegative(config.snapshot, server.waiting[conn]);
      }
    case Garbled(_) =>
    case Reset(_) =>
    case Unsent(_) =>
    case Stop =>
  }

  /**
   * Over any number of connections: when each new quote fits beside the pending ones and nothing but
   * completions is billed, every order in which honest bills fall due stays within the cap.
   */
  lemma {:induction false} ReservingStaysWithinCap(config: Config, events: seq<Event>)
    requires config.spendCap > 0.0 && ValidSnapshot(config.snapshot) && Reserves(config, events)
    ensures Dollars(Committed(config, Run(config, Start(config), events))) <= config.spendCap
    ensures Dollars(Run(config, Start(config), events).session.meter.spent) <= config.spendCap
  {
    var server := Run(config, Start(config), events);
    if events == [] {
      assert Quotes(config.snapshot, map[]) == map[];
    } else {
      var n := |events| - 1;
      ReservesBefore(config, events, n);
      assert ReservesAt(config, events, n);
      ReservingStaysWithinCap(config, events[..n]);
      StepReserves(config, Run(config, Start(config), events[..n]), events[n]);
    }
    CommittedCoversSpend(config, server.session, server.waiting);
  }

  /** The call that an event bills, if the meter is open. */
  function BillOf(config: Config, server: Server, event: Event): Option<CallCost> {
    match event
    case Complete(conn, outcome) =>
      if conn !in server.waiting || outcome.ProviderFailed? then None else
      var pending := server.waiting[conn];
      var reportedIn := if outcome.reportedInput.Some? then outcome.reportedInput.value else 0;
      var reportedOut := if outcome.reportedOutput.Some? then outcome.reportedOutput.value else 0;
      CallOf(Lookup(config.snapshot, pending.model),
             if reportedIn > pending.promptTokens then reportedIn else pending.promptTokens,
             if reportedOut > outcome.outputTokens then reportedOut else outcome.outputTokens)
    case Arrive(conn, request) =>
      var s := server.session;
      if conn in server.waiting || !request.Act? || s.phase == CREATED || s.answer.Some? then None
      else if request.action.None? || request.action.value == "" || !request.argumentsAreObject then None
      else if request.observation.None? then None
      else CallOf(Lookup(config.snapshot, OBSERVATION_CHANNEL), request.observation.value.tokens, 0)
    case _ => None
  }

  function CallOf(price: Result<ModelPrice, PricingError>, input: int, output: int): Option<CallCost> {
    if price.Failure? || input < 0 || output < 0 then None else Some(CallCost(price.value, input, output))
  }

  /** On an open meter, what falls due takes the spend past the cap. */
  predicate PassesCap(config: Config, server: Server, event: Event) {
    var bill := BillOf(config, server, event);
    && !server.session.meter.sealed && bill.Some?
    && Dollars(server.session.meter.spent + CostOf(bill.value)) > config.spendCap
  }

  /** A step adds the bill that falls due to an open meter's spend, and nothing to a sealed one's. */
  lemma StepSpends(config: Config, server: Server, event: Event)
    ensures var before, after := server.session.meter.spent, Step(config, server, event).session.meter.spent;
      var bill := BillOf(config, server, event);
      after == before + if server.session.meter.sealed || bill.None? then 0 else CostOf(bill.value)
  {
    var bill := BillOf(config, server, event);
    if bill.Some? {
      HalfEvenWhole(server.session.meter.spent + CostOf(bill.value));
    }
    if event.Arrive? && event.request.Completions? {
      AskedForMeter(config, Screened(server.session, event.request), event.request);
    }
  }

  lemma {:induction false} StepPasses(config: Config, server: Server, event: Event)
    requires Safe(config, server.session)
    ensures Dollars(Step(config, server, event).session.meter.spent) > config.spendCap
      <==> Dollars(server.session.meter.spent) > config.spendCap || PassesCap(config, server, event)
  {
    StepSpends(config, server, event);
  }

  ghost predicate PassesAtStep(config: Config, events: seq<Event>, k: nat)
    requires k < |events|
  {
    PassesCap(config, Run(config, Start(config), events[..k]), events[k])
  }

  ghost predicate SomePasses(config: Config, events: seq<Event>) {
    exists k :: 0 <= k < |events| && PassesAtStep(config, events, k)
  }

  lemma PassesBefore(config: Config, events: seq<Event>, n: nat, k: nat)
    requires k < n <= |events|
    ensures PassesAtStep(config, events[..n], k) == PassesAtStep(config, events, k)
  {
    assert events[..n][..k] == events[..k];
  }

  lemma SomeOneMore(config: Config, events: seq<Event>)
    requires events != []
    ensures var n := |events| - 1;
      SomePasses(config, events) <==> SomePasses(config, events[..n]) || PassesAtStep(config, events, n)
  {
    var n := |events| - 1;
    forall k | 0 <= k < n ensures PassesAtStep(config, events[..n], k) == PassesAtStep(config, events, k) {
      PassesBefore(config, events, n, k);
    }
  }

  /**
   * Over every interleaving the spend is past the cap exactly when at some step, with the meter still
   * open, a bill fell due that took it there.
   */
  lemma {:induction false} OverspendsExactly(config: Config, events: seq<Event>)
    requires config.spendCap > 0.0
    ensures Dollars(Run(config, Start(config), events).session.meter.spent) > config.spendCap
      <==> SomePasses(config, events)
  {
    if events != [] {
      var n := |events| - 1;
      OverspendsExactly(config, events[..n]);
      SomeOneMore(config, events);
      RunKeepsSafe(config, Start(config), events[..n]);
      StepPasses(config, Run(config, Start(config), events[..n]), events[n]);
    }
  }

  // ----- Refused quotes -----

  /** A completion request that gets as far as its quote. */
  predicate Quotable(config: Config, s: Session, request: Request) {
    && request.Completions? && s.phase != CREATED && s.answer.None?
    && request.messages > 0 && request.messagesParse
    && Chosen(config.snapshot, config.defaultModel, request.model).Success?
    && Lookup(config.snapshot, Chosen(config.snapshot, config.defaultModel, request.model).value).Success?
    && request.promptTokens >= 0 && request.maxTokens.Some? && request.maxTokens.value >= 0
  }

  function Asked(config: Config, request: Request): Pending
    requires request.Completions? && request.maxTokens.Some?
    requires Chosen(config.snapshot, config.defaultModel, request.model).Success?
  {
    Pending(Chosen(config.snapshot, config.defaultModel, request.model).value,
            request.promptTokens, request.maxTokens.value)
  }

  /**
   * A quotable request is refused exactly when its quote exceeds what remains. Refusing seals the
   * meter and ends the phase; nothing is billed either way.
   */
  lemma RefusedExactly(config: Config, s: Session, request: Request)
    requires Quotable(config, s, request)
    ensures var (t, reply) := Served(config.snapshot, config.defaultModel, s, request);
      var left := s.meter.spendCap - Dollars(s.meter.spent);
      var refused := Dollars(QuoteOf(config.snapshot, Asked(config, request))) > if left >= 0.0 then left else 0.0;
      && (reply == Error(CAP_EXHAUSTED) <==> refused)
      && (reply == Suspended(Asked(config, request)) <==> !refused)
      && t.meter == (if refused then Sealed(s.meter) else s.meter)
      && t.phase == (if refused then TERMINATED else s.phase)
  {
  }

  /** One dollar a prompt token, and nothing for anything else. */
  const PER_TOKEN := ModelPrice("m", 1_000_000.0, 0.0)
  const FREE_LOOKS := ModelPrice(OBSERVATION_CHANNEL, 0.0, 0.0)
  const OVERSPENT := Config([PER_TOKEN, FREE_LOOKS], "m", 1.5)
  const ONE_TOKEN := Completions(false, 1, true, Unnamed, Some(0), 1)
  const ONE_TOKEN_ANSWER := Completion(0, None, None)

  lemma OneTokenCosts()
    ensures Price(PER_TOKEN, 1, 0) == 100_000_000
  {
    HalfEvenWhole(100_000_000);
  }

  /** Two connections ask before either is billed: both quotes fit the cap, both bills together do not. */
  lemma TwoConnectionsOverspend()
    ensures var events := [Arrive(0, Initialise(false)), Arrive(0, ONE_TOKEN), Arrive(1, ONE_TOKEN),
                           Complete(0, ONE_TOKEN_ANSWER), Complete(1, ONE_TOKEN_ANSWER)];
      var m := Run(OVERSPENT, Start(OVERSPENT), events).session.meter;
      Dollars(m.spent) == 2.0 && m.spendCap == 1.5 && !LastIsObservation(m)
    ensures WithinQuote(Pending("m", 1, 0), ONE_TOKEN_ANSWER)
  {
    var e0, e1, e2 := Arrive(0, Initialise(false)), Arrive(0, ONE_TOKEN), Arrive(1, ONE_TOKEN);
    var e3, e4 := Complete(0, ONE_TOKEN_ANSWER), Complete(1, ONE_TOKEN_ANSWER);
    BothAsk();
    BothBilled();
    RunsFive(OVERSPENT, Start(OVERSPENT), e0, e1, e2, e3, e4);
  }

  const ASKED := Server(
    Session(MeterState(1.5, 0, [], false), READY, None, 0, false, []),
    map[0 := Pending("m", 1, 0), 1 := Pending("m", 1, 0)])

  lemma BothAsk()
    ensures Step(OVERSPENT, Step(OVERSPENT, Step(OVERSPENT, Start(OVERSPENT), Arrive(0, Initialise(false))),
                                 Arrive(0, ONE_TOKEN)), Arrive(1, ONE_TOKEN)) == ASKED
  {
    OneTokenCosts();
    var s1 := Step(OVERSPENT, Start(OVERSPENT), Arrive(0, Initialise(false)));
    var s2 := Step(OVERSPENT, s1, Arrive(0, ONE_TOKEN));
    assert s2 == s1.(waiting := map[0 := Pending("m", 1, 0)]);
  }

  lemma BothBilled()
    ensures var m := Step(OVERSPENT, Step(OVERSPENT, ASKED, Complete(0, ONE_TOKEN_ANSWER)),
                          Complete(1, ONE_TOKEN_ANSWER)).session.meter;
      Dollars(m.spent) == 2.0 && m.spendCap == 1.5 && !LastIsObservation(m)
  {
    OneTokenCosts();
    HalfEvenWhole(100_000_000);
    var s4 := Step(OVERSPENT, ASKED, Complete(0, ONE_TOKEN_ANSWER));
    assert s4.session.meter.spent == 100_000_000 && !s4.session.meter.sealed;
    HalfEvenWhole(200_000_000);
  }

  lemma RunsFive(config: Config, s: Server, e0: Event, e1: Event, e2: Event, e3: Event, e4: Event)
    ensures Run(config, s, [e0, e1, e2, e3, e4])
            == Step(config, Step(config, Step(config, Step(config, Step(config, s, e0), e1), e2), e3), e4)
  {
    assert Run(config, s, []) == s;
    assert [] + [e0] == [e0] && [e0] + [e1] == [e0, e1] && [e0, e1] + [e2] == [e0, e1, e2];
    assert [e0, e1, e2] + [e3] == [e0, e1, e2, e3];
    assert [e0, e1, e2, e3] + [e4] == [e0, e1, e2, e3, e4];
    RunsOneMore(config, s, [], e0);
    RunsOneMore(config, s, [e0], e1);
    RunsOneMore(config, s, [e0, e1], e2);
    RunsOneMore(config, s, [e0, e1, e2], e3);
    RunsOneMore(config, s, [e0, e1, e2, e3], e4);
  }

  lemma RunsOneMore(config: Config, s: Server, events: seq<Event>, e: Event)
    ensures Run(config, s, events + [e]) == Step(config, Run(config, s, events), e)
  {
    assert (events + [e])[..|events|] == events;
  }
}
