/**
 * src/enclave/validator/daemon.py: exactly what one turn of either loop does, said on the lock file,
 * the revisions at hand and the block.
 */
module ValidatorLaws {
  import opened Directives
  import opened Validators
  import opened Wrappers

  /** The revision that governs at `block`: the newest once effective, else the one adopted before it. */
  function Governing(h: Held, block: int, readable: bool): Option<Directive> {
    if h.latest.None? then None
    else if block >= h.latest.value.effectiveFrom then h.latest
    else
      var before := if h.adopted.Some? then h.adopted else if readable then h.cache else None;
      if before.Some? && block >= before.value.effectiveFrom then before else None
  }

  /** A living process holds the lock, and has not held it for more than a day. */
  predicate InFlight(lock: Option<LockState>, now: real, alive: set<int>) {
    && lock.Some? && lock.value.pid > 0 && lock.value.pid in alive
    && (lock.value.acquiredAt == 0.0 || now - lock.value.acquiredAt <= 86_400.0)
  }

  /** Asking adopts the newest revision once it is effective, and writes it down if it can. */
  function HeldAfter(h: Held, block: int, written: bool): Held {
    if h.latest.Some? && block >= h.latest.value.effectiveFrom then
      Held(h.latest, h.latest, if written then h.latest else h.cache)
    else h
  }

  lemma {:induction false} InForceIs(h: Held, block: int, written: bool, readable: bool)
    ensures InForce(h, block, written, readable) == (HeldAfter(h, block, written), Governing(h, block, readable))
  {
  }

  /** What a weight pass appends. */
  function Sent(n: Node, t: Turn): seq<Publication>
    requires t.WeightPass?
  {
    var directive := Governing(n.held, t.block, t.readable);
    if InFlight(n.lock, t.now, n.alive) then []
    else if directive.Some? then if t.worth then [Folded(directive.value, n.records)] else []
    else if (n.held.cache.None? || !t.readable) && n.records == map[] && t.reservedRegistered then [Fallback]
    else []
  }

  /**
   * A weight pass: held back while a round is in flight; otherwise, with a revision in force, a worthy
   * vector goes out, folded from the records there are under that revision; with none, the fallback
   * if nothing is known. It touches nothing but the revisions held and what is published.
   */
  lemma {:induction false} WeighExactly(n: Node, t: Turn)
    requires t.WeightPass?
    ensures Turned(n, t) == n.(
      published := n.published + Sent(n, t),
      held := if InFlight(n.lock, t.now, n.alive) then n.held else HeldAfter(n.held, t.block, t.written))
  {
    InForceIs(n.held, t.block, t.written, t.readable);
    assert n.published + [] == n.published;
  }

  /** Exactly when a folded vector goes out, and what it is folded from. */
  lemma {:induction false} FoldedExactly(n: Node, t: Turn, directive: Directive, records: map<string, nat>)
    requires t.WeightPass?
    ensures Turned(n, t).published == n.published + [Folded(directive, records)]
      <==> && !InFlight(n.lock, t.now, n.alive) && t.worth
           && Governing(n.held, t.block, t.readable) == Some(directive) && records == n.records
  {
    WeighExactly(n, t);
    OnlyOne(n.published, Sent(n, t), Folded(directive, records));
  }

  lemma OnlyOne(published: seq<Publication>, sent: seq<Publication>, p: Publication)
    ensures published + sent == published + [p] <==> sent == [p]
  {
    assert (published + sent)[|published|..] == sent && (published + [p])[|published|..] == [p];
  }

  /** Leaving a round, in every interleaving, frees the lock, and nothing else happens. */
  lemma {:induction false} LeavingFreesLock(
      pid: int, lock: Option<LockState>, alive: set<int>, turns: seq<Turn>)
    requires pid > 0 && RunFrom(StartNode(pid, lock, alive), turns).place.Evaluating?
    ensures var n := RunFrom(StartNode(pid, lock, alive), turns);
      Turned(n, Finish) == n.(place := Idle, lock := None)
  {
    RunKeepsLock(StartNode(pid, lock, alive), turns);
  }

  /** An evaluation that ends adds one record to the round that is being evaluated. */
  lemma {:induction false} ProgressCounts(n: Node, id: string)
    requires n.place.Evaluating?
    ensures var m := Turned(n, Progress);
      && Count(m.records, id) == Count(n.records, id) + (if id == n.place.roundId then 1 else 0)
      && m == n.(records := m.records)
  {
  }

  /** The score loop gets as far as its round: nothing paused, something due, a revision and a submission. */
  predicate Begins(n: Node, t: Turn)
    requires t.ScorePass?
  {
    && !t.served.paused && t.due && t.submissions
    && Governing(n.held.(latest := Some(t.served)), t.block, t.readable).Some?
  }

  /** No living process holds the lock. */
  predicate Free(lock: Option<LockState>, alive: set<int>) {
    lock.None? || lock.value.pid <= 0 || lock.value.pid !in alive
  }

  /**
   * A turn of the score loop outside a round: the served revision is taken, the round opened if it gets
   * that far, and evaluated under the lock exactly if no living process holds that.
   */
  lemma {:induction false} ScoreExactly(n: Node, t: Turn)
    requires t.ScorePass?
    ensures n.place.Evaluating? ==> Turned(n, t) == n
    ensures n.place.Idle? ==>
      var m := Turned(n, t);
      && m.held.latest == Some(t.served)
      && m.held == (if t.served.paused || !t.due then n.held.(latest := Some(t.served))
                    else HeldAfter(n.held.(latest := Some(t.served)), t.block, t.written))
      && m.rounds == n.rounds + (if Begins(n, t) then {t.roundId} else {})
      && (m.place.Evaluating? <==> Begins(n, t) && Free(n.lock, n.alive))
      && (m.place.Evaluating? ==>
            m.place == Evaluating(t.roundId, t.now) && m.lock == Some(LockState(t.roundId, n.pid, t.now)))
      && (m.place.Idle? ==> m.lock == n.lock)
      && m.records == n.records && m.published == n.published
  {
    InForceIs(n.held.(latest := Some(t.served)), t.block, t.written, t.readable);
  }

  /** A relaunch keeps the files, the lock file among them, and forgets the rest; it is in no round. */
  lemma {:induction false} RelaunchKeepsFiles(n: Node, pid: int)
    requires pid > 0
    ensures var m := Turned(n, Relaunch(pid));
      && m.held == Held(None, None, n.held.cache) && m.place == Idle && m.pid == pid && pid in m.alive
      && m.lock == n.lock && m.records == n.records && m.rounds == n.rounds && m.published == n.published
  {
  }
}
