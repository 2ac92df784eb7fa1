/**
 * src/enclave/validator/daemon.py and state.py: the score loop and the weight loop of one validator,
 * interleaved at every point where the score loop waits, with the round lock file between them.
 */
module Validators {
  import opened Directives
  import opened Wrappers

  const STALE_AFTER_SECONDS: real := 86_400.0

  /** The lock file. */
  datatype LockState = LockState(roundId: string, pid: int, acquiredAt: real)

  function Age(lock: LockState, now: real): real {
    if lock.acquiredAt == 0.0 || now <= lock.acquiredAt then 0.0 else now - lock.acquiredAt
  }

  predicate Expired(lock: LockState, now: real) {
    lock.acquiredAt != 0.0 && Age(lock, now) > STALE_AFTER_SECONDS
  }

  predicate HolderAlive(lock: LockState, alive: set<int>) { lock.pid > 0 && lock.pid in alive }

  predicate RoundInFlight(lock: Option<LockState>, now: real, alive: set<int>) {
    lock.Some? && !Expired(lock.value, now) && HolderAlive(lock.value, alive)
  }

  /** Where the score loop is: not in a round, or waiting for an evaluation inside one. */
  datatype Place = Idle | Evaluating(roundId: string, since: real)

  /** A weight vector sent to the chain: what it was folded from. */
  datatype Publication = Fallback | Folded(directive: Directive, records: map<string, nat>)

  /** Everything the two loops share. `records` counts the records of each round that has any. */
  datatype Node = Node(
    held: Held, lock: Option<LockState>, place: Place, pid: int, alive: set<int>,
    rounds: set<string>, records: map<string, nat>, published: seq<Publication>)

  /**
   * `ScorePass` is one turn of the score loop up to its first evaluation; `Progress` is an evaluation
   * ending in a record; `Finish` leaves the round. `WeightPass` is one turn of the weight loop, which
   * never waits between its check and its publication; `worth` says that the vector it folds names
   * somebody and may go out. The rest is what other processes and the operator do.
   */
  datatype Turn =
    | ScorePass(served: Directive, due: bool, block: int, written: bool, readable: bool,
                submissions: bool, roundId: string, now: real)
    | Progress
    | Finish
    | WeightPass(now: real, block: int, written: bool, readable: bool, worth: bool, reservedRegistered: bool)
    | Relaunch(pid: int)
    | OtherAcquires(pid: int, roundId: string, now: real)
    | OtherReleases(pid: int)
    | Processes(alive: set<int>)

  function Count(records: map<string, nat>, id: string): nat { if id in records then records[id] else 0 }

  /** `round_lock` on entry: refused while the holder of an existing lock lives. */
  predicate MayLock(lock: Option<LockState>, alive: set<int>) {
    lock.None? || !HolderAlive(lock.value, alive)
  }

  function ScoreTurn(n: Node, t: Turn): Node
    requires t.ScorePass?
  {
    if n.place.Evaluating? then n else
    var fetched := Fetched(n.held, t.served);
    if t.served.paused || !t.due then n.(held := fetched) else
    var (held, directive) := InForce(fetched, t.block, t.written, t.readable);
    if directive.None? || !t.submissions then n.(held := held) else
    var begun := n.(held := held, rounds := n.rounds + {t.roundId});
    if !MayLock(n.lock, n.alive) then begun
    else begun.(lock := Some(LockState(t.roundId, n.pid, t.now)), place := Evaluating(t.roundId, t.now))
  }

  function Leaving(n: Node): Node {
    n.(place := Idle, lock := if n.lock.Some? && n.lock.value.pid == n.pid then None else n.lock)
  }

  predicate NothingKnown(n: Node, readable: bool) {
    ReadCache(n.held, readable).None? && n.records == map[]
  }

  function WeightTurn(n: Node, t: Turn): Node
    requires t.WeightPass?
  {
    if RoundInFlight(n.lock, t.now, n.alive) then n else
    var (held, directive) :=
      if n.held.latest.Some? then InForce(n.held, t.block, t.written, t.readable) else (n.held, None);
    var asked := n.(held := held);
    if directive.None? then
      if NothingKnown(asked, t.readable) && t.reservedRegistered then asked.(published := n.published + [Fallback])
      else asked
    else if !t.worth then asked
    else asked.(published := n.published + [Folded(directive.value, n.records)])
  }

  function Turned(n: Node, t: Turn): Node {
    match t
    case ScorePass(_, _, _, _, _, _, _, _) => ScoreTurn(n, t)
    case Progress =>
      if n.place.Idle? then n
      else n.(records := n.records[n.place.roundId := Count(n.records, n.place.roundId) + 1])
    case Finish => if n.place.Idle? then n else Leaving(n)
    case WeightPass(_, _, _, _, _, _) => WeightTurn(n, t)
    case Relaunch(pid) =>
      if pid <= 0 then n
      else n.(held := Restarted(n.held), place := Idle, pid := pid, alive := n.alive - {n.pid} + {pid})
    case OtherAcquires(pid, roundId, now) =>
      if pid <= 0 || pid == n.pid || !MayLock(n.lock, n.alive) then n
      else n.(lock := Some(LockState(roundId, pid, now)), alive := n.alive + {pid})
    case OtherReleases(pid) =>
      if pid != n.pid && n.lock.Some? && n.lock.value.pid == pid then n.(lock := None) else n
    case Processes(alive) => n.(alive := alive + {n.pid})
  }

  function StartNode(pid: int, lock: Option<LockState>, alive: set<int>): Node {
    Node(Held(None, None, None), lock, Idle, pid, alive + {pid}, {}, map[], [])
  }

  function RunFrom(n: Node, turns: seq<Turn>): Node {
    if turns == [] then n else Turned(RunFrom(n, turns[..|turns| - 1]), turns[|turns| - 1])
  }

  class Validator {
    const keeper: DirectiveKeeper
    const pid: int
    var lock: Option<LockState>
    var place: Place
    var alive: set<int>
    var rounds: set<string>
    var records: map<string, nat>
    var published: seq<Publication>

    constructor (keeper: DirectiveKeeper, pid: int, lock: Option<LockState>, alive: set<int>)
      requires keeper.Valid()
      ensures this.keeper == keeper && Valid()
      ensures View() == Node(keeper.View(), lock, Idle, pid, alive + {pid}, {}, map[], [])
    {
      this.keeper, this.pid, this.lock := keeper, pid, lock;
      place, this.alive, rounds, records, published := Idle, alive + {pid}, {}, map[], [];
    }

    ghost predicate Valid()
      reads this, keeper
    {
      keeper.Valid()
    }

    ghost function View(): Node
      reads this, keeper
    {
      Node(keeper.View(), lock, place, pid, alive, rounds, records, published)
    }

    method Score(t: Turn)
      requires Valid() && t.ScorePass?
      modifies this, keeper
      ensures Valid() && View() == ScoreTurn(old(View()), t)
    {
      if place.Evaluating? {
        return;
      }
      keeper.FetchDirective(t.served);
      if t.served.paused || !t.due {
        return;
      }
      var directive := keeper.AskInForce(t.block, t.written, t.readable);
      if directive.None? || !t.submissions {
        return;
      }
      rounds := rounds + {t.roundId};
      if lock.Some? && HolderAlive(lock.value, alive) {
        return;
      }
      lock := Some(LockState(t.roundId, pid, t.now));
      place := Evaluating(t.roundId, t.now);
    }

    method RecordResult()
      requires Valid()
      modifies this
      ensures Valid() && View() == Turned(old(View()), Progress)
    {
      if place.Evaluating? {
        records := records[place.roundId := Count(records, place.roundId) + 1];
      }
    }

    method LeaveRound()
      requires Valid()
      modifies this
      ensures Valid() && View() == Turned(old(View()), Finish)
    {
      if place.Evaluating? {
        place := Idle;
        if lock.Some? && lock.value.pid == pid {
          lock := None;
        }
      }
    }

    method Weigh(t: Turn)
      requires Valid() && t.WeightPass?
      modifies this, keeper
      ensures Valid() && View() == WeightTurn(old(View()), t)
    {
      if RoundInFlight(lock, t.now, alive) {
        return;
      }
      var directive: Option<Directive> := None;
      if keeper.latest.Some? {
        directive := keeper.AskInForce(t.block, t.written, t.readable);
      }
      if directive.None? {
        PublishUnconfigured(t);
        return;
      }
      if t.worth {
        published := published + [Folded(directive.value, records)];
      }
    }

    method PublishUnconfigured(t: Turn)
      requires Valid() && t.WeightPass?
      modifies this
      ensures Valid()
      ensures View() ==
        if NothingKnown(old(View()), t.readable) && t.reservedRegistered
        then old(View()).(published := old(published) + [Fallback]) else old(View())
    {
      var cached := if t.readable then keeper.cache else None;
      if cached.Some? || records != map[] {
        return;
      }
      if !t.reservedRegistered {
        return;
      }
      published := published + [Fallback];
    }
  }

  // ----- The lock between the loops -----

  /** This process lives, and while it waits inside a round the lock file is its own. */
  ghost predicate LockHeld(n: Node) {
    && n.pid > 0 && n.pid in n.alive
    && (n.place.Evaluating? ==> n.lock == Some(LockState(n.place.roundId, n.pid, n.place.since)))
  }

  lemma TurnKeepsLock(n: Node, t: Turn)
    requires LockHeld(n)
    ensures LockHeld(Turned(n, t))
  {
  }

  lemma {:induction false} RunKeepsLock(n: Node, turns: seq<Turn>)
    requires LockHeld(n)
    ensures LockHeld(RunFrom(n, turns))
  {
    if turns != [] {
      RunKeepsLock(n, turns[..|turns| - 1]);
      TurnKeepsLock(RunFrom(n, turns[..|turns| - 1]), turns[|turns| - 1]);
    }
  }

  /**
   * In every interleaving, a weight pass that meets an evaluation waiting inside a round leaves
   * everything as it is, unless the round has been going for longer than the stale limit.
   */
  lemma PublicationWaitsForRound(pid: int, lock: Option<LockState>, alive: set<int>, turns: seq<Turn>, t: Turn)
    requires pid > 0 && t.WeightPass?
    requires RunFrom(StartNode(pid, lock, alive), turns).place.Evaluating?
    ensures var n := RunFrom(StartNode(pid, lock, alive), turns);
      Turned(n, t) == n || (n.place.since != 0.0 && t.now - n.place.since > STALE_AFTER_SECONDS)
  {
    RunKeepsLock(StartNode(pid, lock, alive), turns);
  }

  /** Nobody else gets the lock of a round that is being evaluated, however old it is. */
  lemma RoundIsExclusive(pid: int, lock: Option<LockState>, alive: set<int>, turns: seq<Turn>, t: Turn)
    requires pid > 0 && (t.OtherAcquires? || t.OtherReleases?)
    requires RunFrom(StartNode(pid, lock, alive), turns).place.Evaluating?
    ensures var n := RunFrom(StartNode(pid, lock, alive), turns); Turned(n, t) == n
  {
    RunKeepsLock(StartNode(pid, lock, alive), turns);
  }

  /** While another live process holds an unexpired lock, nothing is published and no round starts. */
  lemma OtherRoundHolds(n: Node, t: Turn)
    requires n.lock.Some? && HolderAlive(n.lock.value, n.alive)
    ensures t.WeightPass? && !Expired(n.lock.value, t.now) ==> Turned(n, t) == n
    ensures t.ScorePass? ==> Turned(n, t).place == n.place && Turned(n, t).lock == n.lock
  {
  }

  /** The kill switch: while the newest revision served is paused no round starts. */
  lemma PausedOpensNothing(n: Node, t: Turn)
    requires t.ScorePass? && t.served.paused
    ensures Turned(n, t).place == n.place && Turned(n, t).rounds == n.rounds && Turned(n, t).lock == n.lock
  {
  }

  // ----- The fallback vector -----

  /** Exactly when the fallback vector is published. */
  lemma FallbackExactly(n: Node, t: Turn)
    requires t.WeightPass?
    ensures Turned(n, t).published == n.published + [Fallback]
      <==> && !RoundInFlight(n.lock, t.now, n.alive)
           && (n.held.latest.None? || InForce(n.held, t.block, t.written, t.readable).1.None?)
           && ReadCache(n.held, t.readable).None? && n.records == map[] && t.reservedRegistered
  {
    if n.held.latest.Some? && InForce(n.held, t.block, t.written, t.readable).1.None? {
      assert InForce(n.held, t.block, t.written, t.readable).0 == n.held;
    }
    assert n.published != n.published + [Fallback];
    assert (n.published + [Fallback])[|n.published|] == Fallback;
    var r := InForce(n.held, t.block, t.written, t.readable).1;
    if r.Some? {
      assert (n.published + [Folded(r.value, n.records)])[|n.published|].Folded?;
    }
  }

  /** Publications made since `n`. */
  ghost predicate NoFallbackSince(n: Node, m: Node) {
    && |n.published| <= |m.published|
    && forall i :: |n.published| <= i < |m.published| ==> m.published[i] != Fallback
  }

  /** Once any round has a record, the fallback vector is never published again. */
  lemma {:induction false} NoFallbackAfterRecords(n: Node, turns: seq<Turn>)
    requires n.records != map[]
    ensures RunFrom(n, turns).records != map[] && NoFallbackSince(n, RunFrom(n, turns))
  {
    if turns != [] {
      NoFallbackAfterRecords(n, turns[..|turns| - 1]);
      TurnKeepsRecords(RunFrom(n, turns[..|turns| - 1]), turns[|turns| - 1]);
    }
  }

  lemma TurnKeepsRecords(m: Node, t: Turn)
    requires m.records != map[]
    ensures Turned(m, t).records != map[]
    ensures NoFallbackSince(m, Turned(m, t)) && m.published <= Turned(m, t).published
  {
    if t.Progress? && m.place.Evaluating? {
      assert m.place.roundId in Turned(m, t).records;
    }
  }

  /** Nor once a directive is cached, as long as the cache file can be read back. */
  lemma {:induction false} NoFallbackAfterCache(n: Node, turns: seq<Turn>)
    requires n.held.cache.Some?
    requires forall t :: t in turns && t.WeightPass? ==> t.readable
    ensures RunFrom(n, turns).held.cache.Some? && NoFallbackSince(n, RunFrom(n, turns))
  {
    if turns != [] {
      NoFallbackAfterCache(n, turns[..|turns| - 1]);
      TurnKeepsCache(RunFrom(n, turns[..|turns| - 1]), turns[|turns| - 1]);
    }
  }

  lemma TurnKeepsCache(m: Node, t: Turn)
    requires m.held.cache.Some? && (t.WeightPass? ==> t.readable)
    ensures Turned(m, t).held.cache.Some?
    ensures NoFallbackSince(m, Turned(m, t)) && m.published <= Turned(m, t).published
  {
  }

  // ----- Both loops ask the same directive machine -----

  /** What a turn does to the directive machine. */
  function Asked(n: Node, t: Turn): seq<Event> {
    match t
    case ScorePass(served, due, block, written, readable, _, _, _) =>
      if n.place.Evaluating? then []
      else if served.paused || !due then [Fetch(served)]
      else [Fetch(served), Ask(block, written, readable)]
    case WeightPass(now, block, written, readable, _, _) =>
      if RoundInFlight(n.lock, now, n.alive) || n.held.latest.None? then [] else [Ask(block, written, readable)]
    case Relaunch(pid) => if pid <= 0 then [] else [Restart]
    case _ => []
  }

  function AllAsked(n: Node, turns: seq<Turn>): seq<Event> {
    if turns == [] then []
    else AllAsked(n, turns[..|turns| - 1]) + Asked(RunFrom(n, turns[..|turns| - 1]), turns[|turns| - 1])
  }

  /** The directives published under, in order. */
  function PublishedUnder(published: seq<Publication>): seq<Directive> {
    if published == [] then [] else
      var last := published[|published| - 1];
      PublishedUnder(published[..|published| - 1]) + if last.Folded? then [last.directive] else []
  }

  /** The node holds what the directive machine holds, and publishes only under what it answered. */
  ghost predicate Follows(n: Node, t: Trace) {
    && n.held == t.held
    && (forall d :: d in PublishedUnder(n.published) ==> d in t.answers)
  }

  lemma RunAppends(events: seq<Event>, more: seq<Event>)
    requires 1 <= |more| <= 2
    ensures Run(events + more)
      == if |more| == 1 then Step(Run(events), more[0]) else Step(Step(Run(events), more[0]), more[1])
  {
    assert (events + more)[..|events + more| - 1] == events + more[..|more| - 1];
    if |more| == 2 {
      assert (events + [more[0]])[..|events|] == events;
      assert more[..1] == [more[0]];
    } else {
      assert events + more[..0] == events;
    }
  }

  lemma OneMorePublished(published: seq<Publication>, p: Publication)
    ensures PublishedUnder(published + [p]) == PublishedUnder(published) + if p.Folded? then [p.directive] else []
  {
    assert (published + [p])[..|published|] == published;
  }

  /** A turn publishes under nothing new, or under the answer it has just been given. */
  lemma TurnPublishes(n: Node, t: Turn)
    ensures var under := PublishedUnder(Turned(n, t).published);
      || under == PublishedUnder(n.published)
      || (&& t.WeightPass? && Asked(n, t) == [Ask(t.block, t.written, t.readable)]
          && InForce(n.held, t.block, t.written, t.readable).1.Some?
          && under == PublishedUnder(n.published) + [InForce(n.held, t.block, t.written, t.readable).1.value])
  {
    if t.WeightPass? {
      OneMorePublished(n.published, Fallback);
      var r := InForce(n.held, t.block, t.written, t.readable).1;
      if n.held.latest.Some? && r.Some? {
        OneMorePublished(n.published, Folded(r.value, n.records));
      }
    }
  }

  lemma TurnHolds(n: Node, events: seq<Event>, t: Turn)
    requires n.held == Run(events).held
    ensures Turned(n, t).held == Run(events + Asked(n, t)).held
    ensures Run(events).answers <= Run(events + Asked(n, t)).answers
  {
    var more := Asked(n, t);
    if more == [] {
      assert events + more == events;
    } else {
      RunAppends(events, more);
    }
  }

  lemma AnswerIsLast(n: Node, events: seq<Event>, block: int, written: bool, readable: bool)
    requires n.held == Run(events).held && InForce(n.held, block, written, readable).1.Some?
    ensures Run(events + [Ask(block, written, readable)]).answers
      == Run(events).answers + [InForce(n.held, block, written, readable).1.value]
  {
    RunAppends(events, [Ask(block, written, readable)]);
  }

  lemma TurnFollows(n: Node, events: seq<Event>, t: Turn)
    requires Follows(n, Run(events))
    ensures Follows(Turned(n, t), Run(events + Asked(n, t)))
  {
    TurnHolds(n, events, t);
    TurnPublishes(n, t);
    if PublishedUnder(Turned(n, t).published) != PublishedUnder(n.published) {
      AnswerIsLast(n, events, t.block, t.written, t.readable);
    }
  }

  lemma {:induction false} RunFollows(pid: int, lock: Option<LockState>, alive: set<int>, turns: seq<Turn>)
    ensures var n := StartNode(pid, lock, alive);
      Follows(RunFrom(n, turns), Run(AllAsked(n, turns)))
  {
    if turns != [] {
      var n, rest := StartNode(pid, lock, alive), turns[..|turns| - 1];
      RunFollows(pid, lock, alive, rest);
      TurnFollows(RunFrom(n, rest), AllAsked(n, rest), turns[|turns| - 1]);
    }
  }

  /**
   * Whatever the interleaving of the two loops and however often the process is relaunched, the
   * weight vectors go out under revisions that never go backwards.
   */
  lemma {:induction false} PublishedInOrder(pid: int, lock: Option<LockState>, alive: set<int>, turns: seq<Turn>)
    requires Kept(AllAsked(StartNode(pid, lock, alive), turns))
    ensures InOrder(PublishedUnder(RunFrom(StartNode(pid, lock, alive), turns).published))
  {
    if turns != [] {
      var n, rest, t := StartNode(pid, lock, alive), turns[..|turns| - 1], turns[|turns| - 1];
      var before := RunFrom(n, rest);
      KeptPrefix(AllAsked(n, rest), Asked(before, t));
      PublishedInOrder(pid, lock, alive, rest);
      RunFollows(pid, lock, alive, rest);
      RevisionsNeverGoBack(AllAsked(n, turns));
      LastPublished(before, AllAsked(n, rest), t);
    }
  }

  lemma {:induction false} KeptPrefix(a: seq<Event>, b: seq<Event>)
    requires Kept(a + b)
    ensures Kept(a)
  {
    if b == [] {
      assert a + b == a;
    } else {
      assert (a + b)[..|a + b| - 1] == a + b[..|b| - 1];
      KeptPrefix(a, b[..|b| - 1]);
    }
  }

  lemma LastPublished(n: Node, events: seq<Event>, t: Turn)
    requires Follows(n, Run(events)) && InOrder(PublishedUnder(n.published))
    requires InOrder(Run(events + Asked(n, t)).answers)
    ensures InOrder(PublishedUnder(Turned(n, t).published))
  {
    TurnPublishes(n, t);
    if PublishedUnder(Turned(n, t).published) != PublishedUnder(n.published) {
      AnswerIsLast(n, events, t.block, t.written, t.readable);
      LatestIsLast(PublishedUnder(n.published), Run(events).answers,
                   InForce(n.held, t.block, t.written, t.readable).1.value);
    }
  }

  lemma LatestIsLast(published: seq<Directive>, answers: seq<Directive>, d: Directive)
    requires InOrder(published) && InOrder(answers + [d]) && forall x :: x in published ==> x in answers
    ensures InOrder(published + [d])
  {
    var all := answers + [d];
    forall x | x in published ensures x.revision <= d.revision {
      var i :| 0 <= i < |answers| && answers[i] == x;
      assert all[i] == x && all[|answers|] == d;
    }
    if published != [] {
      assert published[|published| - 1] in published;
    }
    InOrderOneMore(published, d);
  }
}
