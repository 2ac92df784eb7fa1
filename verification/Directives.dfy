/** src/enclave/validator/daemon.py: which directive revision is in force, across polls and restarts. */
module Directives {
  import opened Wrappers

  datatype Directive = Directive(revision: int, effectiveFrom: int, paused: bool)
  {
    predicate EffectiveAt(block: int) { block >= effectiveFrom }
  }

  /** In memory: the newest revision served and the one adopted. On disk: the cache. */
  datatype Held = Held(latest: Option<Directive>, adopted: Option<Directive>, cache: Option<Directive>)

  function Fetched(h: Held, d: Directive): Held { h.(latest := Some(d)) }

  /** `written`: the cache file could be written. */
  function Adopted(h: Held, d: Directive, written: bool): Held {
    h.(adopted := Some(d), cache := if written then Some(d) else h.cache)
  }

  /** `readable`: the cache file could be read and still verifies. */
  function ReadCache(h: Held, readable: bool): Option<Directive> { if readable then h.cache else None }

  /** The revision that governs scoring at `block`, and what asking leaves behind. */
  function InForce(h: Held, block: int, written: bool, readable: bool): (Held, Option<Directive>) {
    if h.latest.None? then (h, None)
    else if h.latest.value.EffectiveAt(block) then (Adopted(h, h.latest.value, written), h.latest)
    else
      var previous := if h.adopted.Some? then h.adopted else ReadCache(h, readable);
      (h, if previous.Some? && previous.value.EffectiveAt(block) then previous else None)
  }

  /** A restart keeps the file and nothing else. */
  function Restarted(h: Held): Held { Held(None, None, h.cache) }

  class DirectiveKeeper {
    var latest: Option<Directive>
    /** The revision whose signed bytes are kept for the cache. */
    var pendingSigned: Option<Directive>
    var adopted: Option<Directive>
    var cache: Option<Directive>

    constructor (cache: Option<Directive>)
      ensures Valid() && View() == Held(None, None, cache)
    {
      latest, pendingSigned, adopted, this.cache := None, None, None, cache;
    }

    /** What is pending is what was served last. */
    ghost predicate Valid()
      reads this
    {
      pendingSigned == latest
    }

    ghost function View(): Held
      reads this
    {
      Held(latest, adopted, cache)
    }

    method FetchDirective(served: Directive)
      requires Valid()
      modifies this
      ensures Valid() && View() == Fetched(old(View()), served)
    {
      latest := Some(served);
      pendingSigned := Some(served);
    }

    method Adopt(directive: Directive, written: bool)
      requires Valid() && latest == Some(directive)
      modifies this
      ensures Valid() && View() == Adopted(old(View()), directive, written)
    {
      adopted := Some(directive);
      if pendingSigned.Some? && latest == Some(directive) {
        if written {
          cache := pendingSigned;
        }
      }
    }

    method AskInForce(block: int, written: bool, readable: bool) returns (r: Option<Directive>)
      requires Valid()
      modifies this
      ensures Valid() && (View(), r) == InForce(old(View()), block, written, readable)
    {
      if latest.None? {
        return None;
      }
      var candidate := latest.value;
      if candidate.EffectiveAt(block) {
        Adopt(candidate, written);
        return Some(candidate);
      }
      var previous := if adopted.Some? then adopted else if readable then cache else None;
      if previous.Some? && previous.value.EffectiveAt(block) {
        return previous;
      }
      return None;
    }
  }

  /** Whatever is in force at a block is effective at it. */
  lemma InForceIsEffective(h: Held, block: int, written: bool, readable: bool)
    ensures var r := InForce(h, block, written, readable).1;
      r.Some? ==> r.value.EffectiveAt(block)
  {
  }

  // ----- Whole runs, restarts included -----

  datatype Event =
    | Fetch(d: Directive)
    | Ask(block: int, written: bool, readable: bool)
    | Restart

  /** A run so far: everything served and answered, and which served revision was adopted last. */
  datatype Trace = Trace(
    held: Held, served: seq<Directive>, answers: seq<Directive>, lastAdopted: Option<nat>, block: Option<int>)

  function Step(t: Trace, e: Event): Trace {
    match e
    case Fetch(d) => t.(held := Fetched(t.held, d), served := t.served + [d])
    case Restart => t.(held := Restarted(t.held))
    case Ask(block, written, readable) =>
      var (held, r) := InForce(t.held, block, written, readable);
      t.(held := held, block := Some(block),
         answers := if r.Some? then t.answers + [r.value] else t.answers,
         lastAdopted := if t.held.latest.Some? && t.held.latest.value.EffectiveAt(block) && t.served != []
                        then Some(|t.served| - 1) else t.lastAdopted)
  }

  function Run(events: seq<Event>): Trace {
    if events == [] then Trace(Held(None, None, None), [], [], None, None)
    else Step(Run(events[..|events| - 1]), events[|events| - 1])
  }

  /** No revision is served after a newer one. */
  ghost predicate ServedInOrder(events: seq<Event>)
    decreases |events|
  {
    events == [] ||
    (var t, e := Run(events[..|events| - 1]), events[|events| - 1];
     && ServedInOrder(events[..|events| - 1])
     && (e.Fetch? && t.served != [] ==> t.served[|t.served| - 1].revision <= e.d.revision))
  }

  /** Revisions are served in order and every adoption reaches the disk. */
  ghost predicate Kept(events: seq<Event>) {
    ServedInOrder(events) && forall k :: 0 <= k < |events| && events[k].Ask? ==> events[k].written
  }

  /** The chain does not run backwards. */
  ghost predicate Advancing(events: seq<Event>)
    decreases |events|
  {
    events == [] ||
    (var t, e := Run(events[..|events| - 1]), events[|events| - 1];
     && Advancing(events[..|events| - 1])
     && (e.Ask? && t.block.Some? ==> t.block.value <= e.block))
  }

  ghost predicate InOrder(s: seq<Directive>) {
    forall i, j :: 0 <= i <= j < |s| ==> s[i].revision <= s[j].revision
  }

  /** Memory and disk hold the revision adopted last, whatever restarts lie between. */
  ghost predicate Remembers(t: Trace) {
    && (t.held.latest.Some? ==> t.served != [] && t.held.latest.value == t.served[|t.served| - 1])
    && (t.lastAdopted.Some? ==>
          && t.lastAdopted.value < |t.served|
          && t.held.cache == Some(t.served[t.lastAdopted.value])
          && (t.held.adopted.Some? ==> t.held.adopted == t.held.cache))
    && (t.lastAdopted.None? ==> t.held.cache.None? && t.held.adopted.None? && t.answers == [])
  }

  /** What was answered is in order and no newer than what was adopted last. */
  ghost predicate NeverBack(t: Trace) {
    && InOrder(t.served) && InOrder(t.answers)
    && (t.answers != [] ==>
          t.lastAdopted.Some? && t.lastAdopted.value < |t.served|
          && t.answers[|t.answers| - 1].revision <= t.served[t.lastAdopted.value].revision)
  }

  lemma InOrderOneMore(s: seq<Directive>, d: Directive)
    requires InOrder(s) && (s != [] ==> s[|s| - 1].revision <= d.revision)
    ensures InOrder(s + [d])
  {
  }

  lemma StepRemembers(t: Trace, e: Event)
    requires Remembers(t) && (e.Ask? ==> e.written)
    ensures Remembers(Step(t, e))
  {
  }

  lemma StepNeverBack(t: Trace, e: Event)
    requires Remembers(t) && NeverBack(t) && (e.Ask? ==> e.written)
    requires e.Fetch? && t.served != [] ==> t.served[|t.served| - 1].revision <= e.d.revision
    ensures NeverBack(Step(t, e))
  {
    match e
    case Fetch(d) => InOrderOneMore(t.served, d);
    case Restart =>
    case Ask(block, written, readable) =>
      var r := InForce(t.held, block, written, readable).1;
      if r.Some? {
        InOrderOneMore(t.answers, r.value);
      }
  }

  /** Returned revisions never go backwards, restarts included. */
  lemma {:induction false} RevisionsNeverGoBack(events: seq<Event>)
    requires Kept(events)
    ensures Remembers(Run(events)) && NeverBack(Run(events))
  {
    if events != [] {
      RevisionsNeverGoBack(events[..|events| - 1]);
      StepRemembers(Run(events[..|events| - 1]), events[|events| - 1]);
      StepNeverBack(Run(events[..|events| - 1]), events[|events| - 1]);
    }
  }

  // ----- When the cache cannot always be written -----

  /** In order and no newer than what is served, in memory or on disk. */
  ghost predicate Bounded(t: Trace) {
    && (t.held.latest.Some? ==> t.served != [] && t.held.latest.value == t.served[|t.served| - 1])
    && (t.held.cache.Some? ==> t.served != [] && t.held.cache.value.revision <= t.served[|t.served| - 1].revision)
    && (t.held.adopted.Some? ==>
          t.served != [] && t.held.adopted.value.revision <= t.served[|t.served| - 1].revision)
    && (forall i :: 0 <= i < |t.answers| ==>
          && t.served != [] && t.answers[i].revision <= t.served[|t.served| - 1].revision
          && (t.held.adopted.Some? ==> t.answers[i].revision <= t.held.adopted.value.revision))
  }

  lemma StepBounded(t: Trace, e: Event)
    requires Bounded(t)
    requires e.Fetch? && t.served != [] ==> t.served[|t.served| - 1].revision <= e.d.revision
    ensures Bounded(Step(t, e))
  {
  }

  lemma {:induction false} RunBounded(events: seq<Event>)
    requires ServedInOrder(events)
    ensures Bounded(Run(events))
  {
    if events != [] {
      RunBounded(events[..|events| - 1]);
      StepBounded(Run(events[..|events| - 1]), events[|events| - 1]);
    }
  }

  /**
   * The ask that goes back: the latest revision is not effective yet, nothing has been adopted since
   * the restart, and the cache can be read and holds an effective revision older than the last answer.
   */
  predicate GoesBack(t: Trace, e: Event) {
    && e.Ask? && t.answers != []
    && t.held.latest.Some? && !t.held.latest.value.EffectiveAt(e.block)
    && t.held.adopted.None?
    && e.readable && t.held.cache.Some? && t.held.cache.value.EffectiveAt(e.block)
    && t.held.cache.value.revision < t.answers[|t.answers| - 1].revision
  }

  /** From answers in order, one step puts them out of order exactly when it is such an ask. */
  lemma StepGoesBack(t: Trace, e: Event)
    requires Bounded(t) && InOrder(t.answers)
    ensures InOrder(Step(t, e).answers) <==> !GoesBack(t, e)
  {
    if e.Ask? {
      var r := InForce(t.held, e.block, e.written, e.readable).1;
      if r.Some? && t.answers != [] {
        var n := |t.answers|;
        if t.answers[n - 1].revision <= r.value.revision {
          InOrderOneMore(t.answers, r.value);
        } else {
          assert Step(t, e).answers[n] == r.value && Step(t, e).answers[n - 1] == t.answers[n - 1];
        }
      }
    }
  }

  lemma PrefixInOrder(s: seq<Directive>, d: Directive)
    requires InOrder(s + [d])
    ensures InOrder(s)
  {
    forall i, j | 0 <= i <= j < |s| ensures s[i].revision <= s[j].revision {
      assert (s + [d])[i] == s[i] && (s + [d])[j] == s[j];
    }
  }

  ghost predicate BackAt(events: seq<Event>, k: nat)
    requires k < |events|
  {
    GoesBack(Run(events[..k]), events[k])
  }

  /** No ask goes back. */
  ghost predicate NoneGoesBack(events: seq<Event>) {
    forall k :: 0 <= k < |events| ==> !BackAt(events, k)
  }

  lemma BackBefore(events: seq<Event>, n: nat, k: nat)
    requires k < n <= |events|
    ensures BackAt(events[..n], k) == BackAt(events, k)
  {
    assert events[..n][..k] == events[..k];
  }

  lemma NoneOneMore(events: seq<Event>)
    requires events != []
    ensures var n := |events| - 1;
      NoneGoesBack(events) <==> NoneGoesBack(events[..n]) && !BackAt(events, n)
  {
    var n := |events| - 1;
    forall k | 0 <= k < n ensures BackAt(events[..n], k) == BackAt(events, k) {
      BackBefore(events, n, k);
    }
  }

  lemma StepStaysBack(t: Trace, e: Event)
    requires !InOrder(t.answers)
    ensures !InOrder(Step(t, e).answers)
  {
    var after := Step(t, e).answers;
    if after != t.answers {
      var d := after[|t.answers|];
      assert after == t.answers + [d];
      if InOrder(after) {
        PrefixInOrder(t.answers, d);
      }
    }
  }

  /** Whatever is lost on the way to the disk: answers go backwards exactly when such an ask occurs. */
  lemma {:induction false} GoesBackExactly(events: seq<Event>)
    requires ServedInOrder(events)
    ensures InOrder(Run(events).answers) <==> NoneGoesBack(events)
  {
    if events != [] {
      var n := |events| - 1;
      GoesBackExactly(events[..n]);
      RunBounded(events[..n]);
      NoneOneMore(events);
      if InOrder(Run(events[..n]).answers) {
        StepGoesBack(Run(events[..n]), events[n]);
      } else {
        StepStaysBack(Run(events[..n]), events[n]);
      }
    }
  }

  predicate Adopts(t: Trace, e: Event) {
    e.Ask? && t.held.latest.Some? && t.held.latest.value.EffectiveAt(e.block)
  }

  ghost predicate AdoptedAt(events: seq<Event>, k: nat)
    requires k < |events|
  {
    Adopts(Run(events[..k]), events[k])
  }

  /** The adoption of `d` at `m` did not reach the disk, and no later one has. */
  ghost predicate Lost(events: seq<Event>, m: nat, d: Directive) {
    && m < |events| && AdoptedAt(events, m) && Run(events[..m]).held.latest == Some(d) && !events[m].written
    && forall j :: m < j < |events| && AdoptedAt(events, j) ==> !events[j].written
  }

  /** The cache is as new as `d`, or it was lost on the way there. */
  ghost predicate Backed(events: seq<Event>, d: Directive) {
    || (Run(events).held.cache.Some? && d.revision <= Run(events).held.cache.value.revision)
    || exists m: nat :: Lost(events, m, d)
  }

  lemma AdoptedBefore(events: seq<Event>, n: nat, k: nat)
    requires k < n <= |events|
    ensures events[..n][..k] == events[..k]
    ensures AdoptedAt(events[..n], k) == AdoptedAt(events, k)
  {
    assert events[..n][..k] == events[..k];
  }

  lemma StaysLost(events: seq<Event>, m: nat, d: Directive)
    requires events != [] && Lost(events[..|events| - 1], m, d)
    requires AdoptedAt(events, |events| - 1) ==> !events[|events| - 1].written
    ensures Lost(events, m, d)
  {
    var n := |events| - 1;
    AdoptedBefore(events, n, m);
    forall j | m < j < |events| && AdoptedAt(events, j) ensures !events[j].written {
      if j < n {
        AdoptedBefore(events, n, j);
      }
    }
  }

  lemma StaysBacked(events: seq<Event>, d: Directive)
    requires events != [] && Backed(events[..|events| - 1], d)
    requires AdoptedAt(events, |events| - 1) ==> !events[|events| - 1].written
    ensures Backed(events, d)
  {
    var before := events[..|events| - 1];
    if m: nat :| Lost(before, m, d) {
      StaysLost(events, m, d);
    } else {
      assert Run(events).held.cache == Run(before).held.cache;
    }
  }

  lemma {:induction false} AnswersBacked(events: seq<Event>)
    requires ServedInOrder(events)
    ensures forall d :: d in Run(events).answers ==> Backed(events, d)
    ensures Run(events).held.adopted.Some? ==> Backed(events, Run(events).held.adopted.value)
  {
    if events != [] {
      var n := |events| - 1;
      var before, t, e := events[..n], Run(events[..n]), events[n];
      AnswersBacked(before);
      RunBounded(before);
      if AdoptedAt(events, n) && e.written {
        RunBounded(events);
      } else {
        if AdoptedAt(events, n) {
          assert Lost(events, n, t.held.latest.value);
        }
        forall d | d in t.answers || t.held.adopted == Some(d) ensures Backed(events, d) {
          StaysBacked(events, d);
        }
      }
    }
  }

  /** Only a restart forgets an adoption. */
  lemma {:induction false} ForgottenByRestart(events: seq<Event>, m: nat) returns (r: nat)
    requires m < |events| && AdoptedAt(events, m) && Run(events).held.adopted.None?
    ensures m < r < |events| && events[r].Restart?
  {
    var n := |events| - 1;
    if events[n].Restart? {
      r := n;
    } else {
      assert m < n;
      AdoptedBefore(events, n, m);
      r := ForgottenByRestart(events[..n], m);
    }
  }

  /**
   * Behind every answer that goes back is a lost write: the very revision answered last was adopted
   * at `m` without reaching the disk, nothing adopted later has, and the process restarted since.
   */
  lemma BackAfterLostWrite(events: seq<Event>, e: Event) returns (m: nat, r: nat)
    requires ServedInOrder(events) && GoesBack(Run(events), e)
    ensures m < r < |events| && events[r].Restart?
    ensures Lost(events, m, Run(events).answers[|Run(events).answers| - 1])
  {
    var last := Run(events).answers[|Run(events).answers| - 1];
    AnswersBacked(events);
    assert last in Run(events).answers;
    m := WhereLost(events, last);
    r := ForgottenByRestart(events, m);
  }

  lemma WhereLost(events: seq<Event>, d: Directive) returns (m: nat)
    requires Backed(events, d)
    requires Run(events).held.cache.Some? && Run(events).held.cache.value.revision < d.revision
    ensures Lost(events, m, d)
  {
    m :| Lost(events, m, d);
  }

  /** It does happen: one failed cache write, and the restarted validator answers an older revision. */
  lemma LostWriteGoesBack()
    ensures var first, second, third := Directive(1, 0, false), Directive(2, 0, false), Directive(3, 100, false);
            var events := [Fetch(first), Ask(10, true, true), Fetch(second), Ask(20, false, true),
                           Restart, Fetch(third), Ask(50, true, true)];
      Run(events).answers == [first, second, first]
  {
    var first, second, third := Directive(1, 0, false), Directive(2, 0, false), Directive(3, 100, false);
    var a := RunOn([], Fetch(first));
    a := RunOn(a, Ask(10, true, true));
    a := RunOn(a, Fetch(second));
    a := RunOn(a, Ask(20, false, true));
    a := RunOn(a, Restart);
    a := RunOn(a, Fetch(third));
    a := RunOn(a, Ask(50, true, true));
    assert a == [Fetch(first), Ask(10, true, true), Fetch(second), Ask(20, false, true),
                 Restart, Fetch(third), Ask(50, true, true)];
  }

  lemma RunOn(events: seq<Event>, e: Event) returns (longer: seq<Event>)
    ensures longer == events + [e] && Run(longer) == Step(Run(events), e)
  {
    longer := events + [e];
    assert longer[..|events|] == events;
  }

  // ----- Against "the newest served revision that is effective" -----

  function Newest(served: seq<Directive>, block: int): Option<Directive> {
    if served == [] then None
    else if served[|served| - 1].EffectiveAt(block) then Some(served[|served| - 1])
    else Newest(served[..|served| - 1], block)
  }

  lemma {:induction false} NewestSplits(a: seq<Directive>, b: seq<Directive>, block: int)
    ensures Newest(a + b, block) == if Newest(b, block).Some? then Newest(b, block) else Newest(a, block)
  {
    if b == [] {
      assert a + b == a;
    } else {
      assert (a + b)[..|a + b| - 1] == a + b[..|b| - 1];
      NewestSplits(a, b[..|b| - 1], block);
    }
  }

  /** What was adopted was effective then, and is still. */
  ghost predicate AdoptedIsEffective(t: Trace) {
    t.lastAdopted.Some? ==>
      t.lastAdopted.value < |t.served| && t.block.Some? && t.served[t.lastAdopted.value].EffectiveAt(t.block.value)
  }

  lemma StepStaysEffective(t: Trace, e: Event)
    requires Remembers(t) && AdoptedIsEffective(t)
    requires e.Ask? && t.block.Some? ==> t.block.value <= e.block
    ensures AdoptedIsEffective(Step(t, e))
  {
  }

  lemma {:induction false} AdoptedStaysEffective(events: seq<Event>)
    requires Kept(events) && Advancing(events)
    ensures AdoptedIsEffective(Run(events))
  {
    if events != [] {
      var before := events[..|events| - 1];
      AdoptedStaysEffective(before);
      RevisionsNeverGoBack(before);
      StepStaysEffective(Run(before), events[|events| - 1]);
    }
  }

  /** The revisions served since the last adoption. */
  function ServedSince(t: Trace): seq<Directive> {
    if t.lastAdopted.Some? && t.lastAdopted.value < |t.served| then t.served[t.lastAdopted.value + 1..] else t.served
  }

  /** The revision adopted last, in whichever process. */
  function LastAdopted(t: Trace): Option<Directive> {
    if t.lastAdopted.Some? && t.lastAdopted.value < |t.served| then Some(t.served[t.lastAdopted.value]) else None
  }

  /**
   * Exactly when the answer is the newest served revision effective at the block: the latest is
   * effective, or nothing served since the last adoption is, or only the one adopted served again.
   */
  lemma InForceRefinesNewest(events: seq<Event>, block: int, written: bool)
    requires Kept(events) && Advancing(events)
    requires Run(events).held.latest.Some?
    requires Run(events).block.Some? ==> Run(events).block.value <= block
    ensures var t := Run(events);
            var r := InForce(t.held, block, written, true).1;
      r == Newest(t.served, block)
      <==> || t.held.latest.value.EffectiveAt(block)
           || Newest(ServedSince(t), block).None?
           || Newest(ServedSince(t), block) == LastAdopted(t)
  {
    var t := Run(events);
    RevisionsNeverGoBack(events);
    AdoptedStaysEffective(events);
    RefinesWhen(t, block, written);
  }

  lemma RefinesWhen(t: Trace, block: int, written: bool)
    requires Remembers(t) && AdoptedIsEffective(t) && t.held.latest.Some?
    requires t.block.Some? ==> t.block.value <= block
    ensures InForce(t.held, block, written, true).1 == Newest(t.served, block)
      <==> || t.held.latest.value.EffectiveAt(block)
           || Newest(ServedSince(t), block).None?
           || Newest(ServedSince(t), block) == LastAdopted(t)
  {
    if t.lastAdopted.Some? {
      NewestSince(t.served, t.lastAdopted.value, block);
    }
  }

  /** When an effective revision is at `n`, the newest is among those after it, or it is that one. */
  lemma NewestSince(served: seq<Directive>, n: nat, block: int)
    requires n < |served| && served[n].EffectiveAt(block)
    ensures var since := Newest(served[n + 1..], block);
      Newest(served, block) == if since.Some? then since else Some(served[n])
  {
    assert served == served[..n + 1] + served[n + 1..];
    NewestSplits(served[..n + 1], served[n + 1..], block);
  }

  lemma {:induction false} NewestAmongSame(served: seq<Directive>, d: Directive, block: int)
    requires !d.EffectiveAt(block) && forall i :: 0 <= i < |served| ==> served[i] == d
    ensures Newest(served, block).None?
  {
    if served != [] {
      NewestAmongSame(served[..|served| - 1], d, block);
    }
  }

  /**
   * So it is, always, when each revision is adopted before the next is served: since the last
   * adoption nothing but the latest has been, however often it was polled while it waits.
   */
  lemma PromptAdoptionRefines(events: seq<Event>, block: int, written: bool)
    requires Kept(events) && Advancing(events)
    requires Run(events).held.latest.Some?
    requires forall d :: d in ServedSince(Run(events)) ==> d == Run(events).held.latest.value
    requires Run(events).block.Some? ==> Run(events).block.value <= block
    ensures InForce(Run(events).held, block, written, true).1 == Newest(Run(events).served, block)
  {
    InForceRefinesNewest(events, block, written);
    var latest := Run(events).held.latest.value;
    if !latest.EffectiveAt(block) {
      var since := ServedSince(Run(events));
      forall i | 0 <= i < |since| ensures since[i] == latest {
        assert since[i] in since;
      }
      NewestAmongSame(since, latest, block);
    }
  }

  /** A revision fetched over before it took effect is skipped for as long as its successor waits. */
  lemma SkippedRevision()
    ensures var first, second, third := Directive(1, 10, false), Directive(2, 20, false), Directive(3, 30, false);
            var t := Run([Fetch(first), Ask(10, true, true), Fetch(second), Fetch(third)]);
      && InForce(t.held, 25, true, true).1 == Some(first)
      && Newest(t.served, 25) == Some(second)
  {
    var first, second, third := Directive(1, 10, false), Directive(2, 20, false), Directive(3, 30, false);
    var a := RunOn([], Fetch(first));
    a := RunOn(a, Ask(10, true, true));
    a := RunOn(a, Fetch(second));
    a := RunOn(a, Fetch(third));
    assert a == [Fetch(first), Ask(10, true, true), Fetch(second), Fetch(third)];
    assert Run(a).served == [first, second, third];
    assert [first, second, third][..2] == [first, second];
  }
}
