/**
 * src/enclave/environments/families/archive.py: which seed, and which of its draws, each part of a
 * built world comes from, said on the world itself and on the hash.
 */
module ArchiveDraws {
  import opened Archive
  import opened ArchiveLaws
  import opened Numbers
  import opened Prf
  import opened Sorting
  import opened Strings
  import opened Sums
  import opened Vocabulary
  import opened Wrappers

  /** The number that `purpose` draws from `seed` at `counter`: the three texts hashed, below `bound`. */
  function DrawOf(hash: string -> nat, seed: string, purpose: string, counter: nat, bound: nat): (i: nat)
    requires bound > 0
    ensures i < bound
  {
    hash(seed + "\0" + purpose + "\0" + Decimal(counter)) % bound
  }

  lemma {:induction false} IndexIsDraw(hash: string -> nat, seed: string, purpose: string, counter: nat, bound: nat)
    requires bound > 0
    ensures Index(StreamOf(hash, seed + "\0" + purpose), counter, bound) == DrawOf(hash, seed, purpose, counter, bound)
  {
    ModuloIs(hash(seed + "\0" + purpose + "\0" + Decimal(counter)), bound);
  }

  /** The syllable drawn at `counter`. */
  function SyllableAt(w: Words, hash: string -> nat, seed: string, purpose: string, counter: nat): string {
    w.syllables[DrawOf(hash, seed, purpose, counter, |w.syllables|)]
  }

  lemma {:induction false} TokenOfTwo(w: Words, hash: string -> nat, seed: string, purpose: string, c: nat)
    ensures Token(w, StreamOf(hash, seed + "\0" + purpose), c, 2)
      == SyllableAt(w, hash, seed, purpose, c) + SyllableAt(w, hash, seed, purpose, c + 1)
  {
    var s := StreamOf(hash, seed + "\0" + purpose);
    IndexIsDraw(hash, seed, purpose, c, |w.syllables|);
    IndexIsDraw(hash, seed, purpose, c + 1, |w.syllables|);
    assert Token(w, s, c, 0) == "";
    assert Token(w, s, c, 1) == SyllableAt(w, hash, seed, purpose, c);
  }

  lemma {:induction false} TokenOfThree(w: Words, hash: string -> nat, seed: string, purpose: string, c: nat)
    ensures Token(w, StreamOf(hash, seed + "\0" + purpose), c, 3)
      == SyllableAt(w, hash, seed, purpose, c) + SyllableAt(w, hash, seed, purpose, c + 1)
         + SyllableAt(w, hash, seed, purpose, c + 2)
  {
    TokenOfTwo(w, hash, seed, purpose, c);
    IndexIsDraw(hash, seed, purpose, c + 2, |w.syllables|);
  }

  // ----- Entities -----

  lemma {:induction false} SortedSetSize(names: seq<string>)
    ensures |SortedSet(names)| <= |names|
  {
    if names != [] {
      SortedSetSize(names[..|names| - 1]);
      InsertNewSize(names[|names| - 1], SortedSet(names[..|names| - 1]));
    }
  }

  lemma {:induction false} InsertNewSize(x: string, s: seq<string>)
    ensures |InsertNew(x, s)| <= |s| + 1
  {
    if s != [] {
      InsertNewSize(x, s[1..]);
    }
  }

  /** The refill loop stops at exactly as many entities as were asked for. */
  lemma {:induction false} EntityCount(first: seq<string>, more: nat -> string, refills: nat, bound: nat)
    requires refills <= bound && Supplies(first, more, bound)
    requires |AfterRefills(first, more, refills)| <= |first|
    ensures |EntitiesFrom(first, more, refills, bound)| == |first|
    decreases bound - refills
  {
    if |AfterRefills(first, more, refills)| < |first| {
      SortedSetSize(AfterRefills(first, more, refills) + [more(refills)]);
      EntityCount(first, more, refills + 1, bound);
    }
  }

  /** Every first name is among the entities, and whatever else is among them is a refill. */
  lemma {:induction false} RefillMembers(first: seq<string>, more: nat -> string, refills: nat, e: string)
    ensures e in first ==> e in AfterRefills(first, more, refills)
    ensures e in AfterRefills(first, more, refills) ==> e in first || exists k: nat :: e == more(k)
    decreases refills
  {
    if refills == 0 {
      SortedSetIs(first);
    } else {
      RefillMembers(first, more, refills - 1, e);
      SortedSetIs(AfterRefills(first, more, refills - 1) + [more(refills - 1)]);
    }
  }

  lemma {:induction false} EntityMembers(
      first: seq<string>, more: nat -> string, refills: nat, bound: nat, e: string)
    requires refills <= bound && Supplies(first, more, bound)
    ensures e in first ==> e in EntitiesFrom(first, more, refills, bound)
    ensures e in EntitiesFrom(first, more, refills, bound) ==> e in first || exists k: nat :: e == more(k)
    decreases bound - refills
  {
    if |AfterRefills(first, more, refills)| >= |first| {
      RefillMembers(first, more, refills, e);
    } else {
      EntityMembers(first, more, refills + 1, bound, e);
    }
  }

  lemma {:induction false} ListAt(f: nat -> string, count: nat, k: nat)
    requires k < count
    ensures ListOf(f, count)[k] == f(k)
  {
    if k < count - 1 {
      ListAt(f, count - 1, k);
    }
  }

  /** The `k`-th name drawn at first: a noun and two syllables of the structure source. */
  function FirstName(w: Words, hash: string -> nat, seed: string, k: nat): string {
    w.nouns[DrawOf(hash, seed, "structure", 3 * k, |w.nouns|)] + "-"
      + (SyllableAt(w, hash, seed, "structure", 3 * k + 1) + SyllableAt(w, hash, seed, "structure", 3 * k + 2))
  }

  /** The `k`-th name drawn to make up for a repeat: a noun and three syllables, after the first `count`. */
  function RefillName(w: Words, hash: string -> nat, seed: string, count: nat, k: nat): string {
    var c := 3 * count + 4 * k;
    w.nouns[DrawOf(hash, seed, "structure", c, |w.nouns|)] + "-"
      + (SyllableAt(w, hash, seed, "structure", c + 1) + SyllableAt(w, hash, seed, "structure", c + 2)
         + SyllableAt(w, hash, seed, "structure", c + 3))
  }

  /**
   * The entities: different names in ascending order, as many as asked for, among them every name
   * drawn at first, and whatever else is among them drawn later from the same source.
   */
  ghost predicate NamedFrom(w: Words, hash: string -> nat, spec: Spec, entities: seq<string>)
    requires spec.entities >= 1
  {
    && Ascending(entities) && |entities| == spec.entities
    && (forall k :: 0 <= k < spec.entities ==> FirstName(w, hash, spec.seed, k) in entities)
    && (forall e :: e in entities ==>
          || (exists k :: 0 <= k < spec.entities && e == FirstName(w, hash, spec.seed, k))
          || (exists k: nat :: e == RefillName(w, hash, spec.seed, spec.entities, k)))
  }

  lemma {:induction false} FirstIsNamed(w: Words, hash: string -> nat, seed: string, k: nat)
    ensures First(w, StreamOf(hash, seed + "\0" + "structure"))(k) == FirstName(w, hash, seed, k)
  {
    IndexIsDraw(hash, seed, "structure", 3 * k, |w.nouns|);
    TokenOfTwo(w, hash, seed, "structure", 3 * k + 1);
  }

  lemma {:induction false} RefillIsNamed(w: Words, hash: string -> nat, seed: string, count: nat, k: nat)
    ensures Refill(w, StreamOf(hash, seed + "\0" + "structure"), count)(k) == RefillName(w, hash, seed, count, k)
  {
    IndexIsDraw(hash, seed, "structure", 3 * count + 4 * k, |w.nouns|);
    TokenOfThree(w, hash, seed, "structure", 3 * count + 4 * k + 1);
  }

  lemma {:induction false} EntitiesAreDrawn(w: Words, hash: string -> nat, spec: Spec, bound: nat)
    requires Sound(w) && spec.entities >= 1 && spec.documents >= 1
    requires Drawable(w, StreamOf(hash, spec.seed + "\0" + "structure"), spec, bound)
    ensures NamedFrom(w, hash, spec, EntitiesOf(w, StreamOf(hash, spec.seed + "\0" + "structure"), spec, bound))
  {
    var s, count := StreamOf(hash, spec.seed + "\0" + "structure"), spec.entities;
    var first, more := FirstNames(w, s, count), Refill(w, s, count);
    DrawnAreEntities(w, s, count, bound);
    SortedSetSize(first);
    EntityCount(first, more, 0, bound);
    var entities := EntitiesFrom(first, more, 0, bound);
    forall k | 0 <= k < count ensures FirstName(w, hash, spec.seed, k) in entities {
      ListAt(First(w, s), count, k);
      FirstIsNamed(w, hash, spec.seed, k);
      assert first[k] in first;
      EntityMembers(first, more, 0, bound, first[k]);
    }
    forall e | e in entities
      ensures (exists k :: 0 <= k < count && e == FirstName(w, hash, spec.seed, k))
           || (exists k: nat :: e == RefillName(w, hash, spec.seed, count, k))
    {
      EntityMembers(first, more, 0, bound, e);
      if e in first {
        var k :| 0 <= k < |first| && first[k] == e;
        ListAt(First(w, s), count, k);
        FirstIsNamed(w, hash, spec.seed, k);
      } else {
        var k: nat :| e == more(k);
        RefillIsNamed(w, hash, spec.seed, count, k);
      }
    }
  }

  // ----- Facts -----

  lemma {:induction false} SlotsAt(w: Words, entities: seq<string>, e: nat, a: nat)
    requires e < |entities| && a < |w.attributes|
    ensures |SlotsOf(w, entities)| == |entities| * |w.attributes|
    ensures e * |w.attributes| + a < |SlotsOf(w, entities)|
    ensures SlotsOf(w, entities)[e * |w.attributes| + a] == Slot(entities[e], w.attributes[a])
  {
    var n, m := |entities| - 1, |w.attributes|;
    SlotsCount(w, entities[..n]);
    assert |entities| * m == n * m + m;
    if e < n {
      SlotsAt(w, entities[..n], e, a);
    }
  }

  lemma {:induction false} SlotsCount(w: Words, entities: seq<string>)
    ensures |SlotsOf(w, entities)| == |entities| * |w.attributes|
  {
    if entities != [] {
      SlotsCount(w, entities[..|entities| - 1]);
      assert |entities| * |w.attributes| == (|entities| - 1) * |w.attributes| + |w.attributes|;
    }
  }

  /** A text without a dot cannot reach past the first dot of another. */
  lemma {:induction false} DotStops(p: string, a: string, q: string, b: string)
    requires p + "." + a == q + "." + b && '.' !in q
    ensures |q| <= |p|
  {
    assert (p + "." + a)[|p|] == '.';
    assert forall i :: 0 <= i < |q| ==> (q + "." + b)[i] == q[i];
  }

  lemma {:induction false} KeyInjective(w: Words, s: Slot, t: Slot)
    requires GoodSlot(w, s) && GoodSlot(w, t) && Key(s) == Key(t)
    ensures s == t
  {
    DotStops(s.entity, s.attribute, t.entity, t.attribute);
    DotStops(t.entity, t.attribute, s.entity, s.attribute);
    var n := |s.entity|;
    assert s.entity == Key(s)[..n] && t.entity == Key(t)[..n];
    assert s.attribute == Key(s)[n + 1..] && t.attribute == Key(t)[n + 1..];
  }

  lemma {:induction false} SlotsDistinct(w: Words, entities: seq<string>)
    requires Sound(w) && Distinct(entities) && forall e :: e in entities ==> EntityName(e)
    ensures Distinct(Keys(SlotsOf(w, entities)))
  {
    if entities != [] {
      var n := |entities| - 1;
      var before, last := SlotsOf(w, entities[..n]), SlotsFor(w, entities[n]);
      SlotsDistinct(w, entities[..n]);
      SlotsAreGood(w, entities[..n]);
      assert entities[n] in entities;
      forall i, j | 0 <= i < |before| && 0 <= j < |last| ensures Key(before[i]) != Key(last[j]) {
        assert before[i] in before;
        if Key(before[i]) == Key(last[j]) {
          KeyInjective(w, before[i], last[j]);
        }
      }
      forall i, j | 0 <= i < j < |last| ensures Key(last[i]) != Key(last[j]) {
        if Key(last[i]) == Key(last[j]) {
          KeyInjective(w, last[i], last[j]);
        }
      }
    }
  }

  lemma {:induction false} FactAt(slots: seq<Slot>, value: nat -> string, n: nat)
    requires n < |slots| && Distinct(Keys(slots))
    ensures Key(slots[n]) in Facts(slots, value) && Facts(slots, value)[Key(slots[n])] == Fact(slots[n], value(n))
  {
    var last := |slots| - 1;
    if n < last {
      assert Keys(slots)[n] != Keys(slots)[last];
      forall i, j | 0 <= i < j < last ensures Keys(slots[..last])[i] != Keys(slots[..last])[j] {
        assert Keys(slots)[i] != Keys(slots)[j];
      }
      FactAt(slots[..last], value, n);
    }
  }

  /** Three syllables, drawn one after the other. */
  function ValueAt(w: Words, hash: string -> nat, seed: string, n: nat): string {
    SyllableAt(w, hash, seed, "values", 3 * n) + SyllableAt(w, hash, seed, "values", 3 * n + 1)
      + SyllableAt(w, hash, seed, "values", 3 * n + 2)
  }

  /** The fact about entity `e` and attribute `a`, its value drawn from the value seed. */
  ghost predicate FactDrawn(
      w: Words, hash: string -> nat, valueSeed: string, entities: seq<string>, facts: map<string, Fact>, e: nat, a: nat)
    requires e < |entities| && a < |w.attributes|
  {
    var key := entities[e] + "." + w.attributes[a];
    && key in facts
    && facts[key].slot == Slot(entities[e], w.attributes[a])
    && facts[key].value == ValueAt(w, hash, valueSeed, e * |w.attributes| + a)
  }

  /** There is a fact for every entity with every attribute, and no other. */
  ghost predicate FactsDrawn(
      w: Words, hash: string -> nat, valueSeed: string, entities: seq<string>, facts: map<string, Fact>)
  {
    && (forall e, a :: 0 <= e < |entities| && 0 <= a < |w.attributes| ==>
          FactDrawn(w, hash, valueSeed, entities, facts, e, a))
    && (forall k :: k in facts ==>
          && facts[k].slot.entity in entities && facts[k].slot.attribute in w.attributes
          && k == facts[k].slot.entity + "." + facts[k].slot.attribute)
  }

  lemma {:induction false} OneFactDrawn(
      w: Words, hash: string -> nat, valueSeed: string, entities: seq<string>, e: nat, a: nat)
    requires Distinct(Keys(SlotsOf(w, entities))) && e < |entities| && a < |w.attributes|
    ensures FactDrawn(w, hash, valueSeed, entities,
                      Facts(SlotsOf(w, entities), Values(w, StreamOf(hash, valueSeed + "\0" + "values"))), e, a)
  {
    var n := e * |w.attributes| + a;
    var slots, value := SlotsOf(w, entities), Values(w, StreamOf(hash, valueSeed + "\0" + "values"));
    SlotsAt(w, entities, e, a);
    FactAt(slots, value, n);
    ValueIsDrawn(w, hash, valueSeed, n);
  }

  lemma {:induction false} ValueIsDrawn(w: Words, hash: string -> nat, valueSeed: string, n: nat)
    ensures Values(w, StreamOf(hash, valueSeed + "\0" + "values"))(n) == ValueAt(w, hash, valueSeed, n)
  {
    TokenOfThree(w, hash, valueSeed, "values", 3 * n);
  }

  lemma {:induction false} FactSlots(w: Words, entities: seq<string>, value: nat -> string, k: string)
    requires (forall e :: e in entities ==> EntityName(e)) && k in Facts(SlotsOf(w, entities), value)
    ensures var slot := Facts(SlotsOf(w, entities), value)[k].slot;
      slot.entity in entities && slot.attribute in w.attributes && k == slot.entity + "." + slot.attribute
  {
    var slots := SlotsOf(w, entities);
    FactsMatch(slots, value);
    SlotMapFrom(slots);
    SlotsAreGood(w, entities);
    assert SlotMap(slots)[k] in slots;
  }

  lemma {:induction false} PlanFactsDrawn(
      w: Words, hash: string -> nat, valueSeed: string, entities: seq<string>, facts: map<string, Fact>)
    requires Sound(w) && Entities(entities)
    requires facts == Facts(SlotsOf(w, entities), Values(w, StreamOf(hash, valueSeed + "\0" + "values")))
    ensures FactsDrawn(w, hash, valueSeed, entities, facts)
  {
    SlotsDistinct(w, entities);
    forall e, a | 0 <= e < |entities| && 0 <= a < |w.attributes|
      ensures FactDrawn(w, hash, valueSeed, entities, facts, e, a)
    {
      OneFactDrawn(w, hash, valueSeed, entities, e, a);
    }
    forall k | k in facts
      ensures facts[k].slot.entity in entities && facts[k].slot.attribute in w.attributes
      ensures k == facts[k].slot.entity + "." + facts[k].slot.attribute
    {
      FactSlots(w, entities, Values(w, StreamOf(hash, valueSeed + "\0" + "values")), k);
    }
  }

  /** What `built` is the world of. */
  ghost predicate BuiltFrom(
      w: Words, hash: string -> nat, spec: Spec, valueSeed: string, bound: nat, world: World)
  {
    && Sound(w) && Drawable(w, StreamsOf(hash, spec.seed, valueSeed).structure, spec, bound)
    && Built(w, StreamsOf(hash, spec.seed, valueSeed), spec, bound) == Success(world)
  }

  /** The entities of the worlds of a spec, whatever the value seed. */
  function EntitiesIn(w: Words, hash: string -> nat, spec: Spec, bound: nat): seq<string>
    requires spec.entities >= 1 && spec.documents >= 1
    requires Drawable(w, StreamOf(hash, spec.seed + "\0" + "structure"), spec, bound)
  {
    EntitiesOf(w, StreamOf(hash, spec.seed + "\0" + "structure"), spec, bound)
  }

  /** A world and what it was put together from. */
  lemma {:induction false} BuiltIs(w: Words, s: Streams, spec: Spec, bound: nat, world: World, entities: seq<string>)
    requires spec.entities >= 1 && spec.documents >= 1 && Drawable(w, s.structure, spec, bound)
    requires entities == EntitiesOf(w, s.structure, spec, bound)
    requires Built(w, s, spec, bound) == Success(world)
    ensures var plan := PlanFor(w, s.placement, spec.documents, entities);
      && spec.graded <= |plan.keys|
      && world == WorldOf(plan, FactsOf(plan, s.values), Graded(s.selection, plan.keys, spec.graded))
  {
  }

  lemma {:induction false} FactsIn(plan: Plan, facts: map<string, Fact>, graded: seq<string>, values: Stream)
    requires plan.documents > 0 && facts == FactsOf(plan, values)
    ensures WorldOf(plan, facts, graded).facts == Facts(SlotsOf(plan.words, plan.entities), Values(plan.words, values))
    ensures WorldOf(plan, facts, graded).graded == graded
  {
  }

  lemma {:induction false} BuiltOn(w: Words, s: Streams, spec: Spec, bound: nat, world: World)
    requires Sound(w) && Drawable(w, s.structure, spec, bound) && Built(w, s, spec, bound) == Success(world)
    ensures spec.entities >= 1 && spec.documents >= 1
    ensures var entities := EntitiesOf(w, s.structure, spec, bound);
      Entities(entities) && world.facts == Facts(SlotsOf(w, entities), Values(w, s.values))
  {
    var entities := EntitiesOf(w, s.structure, spec, bound);
    DrawnAreEntities(w, s.structure, spec.entities, bound);
    BuiltIs(w, s, spec, bound, world, entities);
    var plan := PlanFor(w, s.placement, spec.documents, entities);
    FactsIn(plan, FactsOf(plan, s.values), Graded(s.selection, plan.keys, spec.graded), s.values);
  }

  lemma {:induction false} BuiltFacts(
      w: Words, hash: string -> nat, spec: Spec, valueSeed: string, bound: nat, world: World)
    requires BuiltFrom(w, hash, spec, valueSeed, bound, world)
    ensures spec.entities >= 1 && spec.documents >= 1
    ensures Drawable(w, StreamOf(hash, spec.seed + "\0" + "structure"), spec, bound)
    ensures Entities(EntitiesIn(w, hash, spec, bound))
    ensures world.facts == Facts(SlotsOf(w, EntitiesIn(w, hash, spec, bound)),
                                 Values(w, StreamOf(hash, valueSeed + "\0" + "values")))
  {
    BuiltOn(w, StreamsOf(hash, spec.seed, valueSeed), spec, bound, world);
  }

  lemma {:induction false} WorldFacts(
      w: Words, hash: string -> nat, spec: Spec, valueSeed: string, bound: nat, world: World)
    requires BuiltFrom(w, hash, spec, valueSeed, bound, world)
    ensures spec.entities >= 1 && spec.documents >= 1
    ensures Drawable(w, StreamOf(hash, spec.seed + "\0" + "structure"), spec, bound)
    ensures FactsDrawn(w, hash, valueSeed, EntitiesIn(w, hash, spec, bound), world.facts)
  {
    BuiltFacts(w, hash, spec, valueSeed, bound, world);
    PlanFactsDrawn(w, hash, valueSeed, EntitiesIn(w, hash, spec, bound), world.facts);
  }

  /**
   * The facts of a world: its entities are named by draws from the spec's seed, and the value of the
   * n-th pair of an entity and an attribute is spelled by the syllables that the value seed draws at
   * 3n, 3n + 1 and 3n + 2.
   */
  lemma {:induction false} ValuesAreDrawn(
      w: Words, hash: string -> nat, spec: Spec, valueSeed: string, bound: nat, world: World)
      returns (entities: seq<string>)
    requires BuiltFrom(w, hash, spec, valueSeed, bound, world)
    ensures spec.entities >= 1 && spec.documents >= 1 && NamedFrom(w, hash, spec, entities)
    ensures FactsDrawn(w, hash, valueSeed, entities, world.facts)
  {
    WorldFacts(w, hash, spec, valueSeed, bound, world);
    entities := EntitiesIn(w, hash, spec, bound);
    EntitiesAreDrawn(w, hash, spec, bound);
  }

  // ----- Two value seeds -----

  /** No syllable begins with another, so a run of them is read in one way only. */
  ghost predicate PrefixFree(syllables: seq<string>) {
    forall i, j :: 0 <= i < |syllables| && 0 <= j < |syllables| && i != j ==> !(syllables[i] <= syllables[j])
  }

  lemma {:induction false} HeadIsPrefix(a: string, s: string, b: string, t: string)
    requires a + s == b + t && |a| <= |b|
    ensures a <= b
  {
    assert a == (b + t)[..|a|];
  }

  lemma {:induction false} TailsAgree(a: string, s: string, t: string)
    requires a + s == a + t
    ensures s == t
  {
    assert s == (a + s)[|a|..] && t == (a + t)[|a|..];
  }

  lemma {:induction false} HeadsApart(syllables: seq<string>, i: nat, j: nat, s: string, t: string)
    requires PrefixFree(syllables) && i < |syllables| && j < |syllables|
    requires syllables[i] + s == syllables[j] + t
    ensures i == j && s == t
  {
    if |syllables[i]| <= |syllables[j]| {
      HeadIsPrefix(syllables[i], s, syllables[j], t);
    } else {
      HeadIsPrefix(syllables[j], t, syllables[i], s);
    }
    TailsAgree(syllables[i], s, t);
  }

  lemma {:induction false} SpelledApart(
      syllables: seq<string>, i: nat, j: nat, k: nat, i': nat, j': nat, k': nat)
    requires PrefixFree(syllables) && i < |syllables| && j < |syllables| && k < |syllables|
    requires i' < |syllables| && j' < |syllables| && k' < |syllables|
    ensures syllables[i] + syllables[j] + syllables[k] == syllables[i'] + syllables[j'] + syllables[k']
      <==> i == i' && j == j' && k == k'
  {
    var x, y := syllables[j] + syllables[k], syllables[j'] + syllables[k'];
    assert syllables[i] + syllables[j] + syllables[k] == syllables[i] + x;
    assert syllables[i'] + syllables[j'] + syllables[k'] == syllables[i'] + y;
    if syllables[i] + x == syllables[i'] + y {
      HeadsApart(syllables, i, i', x, y);
      HeadsApart(syllables, j, j', syllables[k], syllables[k']);
      HeadsApart(syllables, k, k', [], []);
    }
  }

  /** The `n`-th value takes the same three draws from either seed. */
  predicate SameDraws(w: Words, hash: string -> nat, a: string, b: string, n: nat) {
    var m := |w.syllables|;
    && DrawOf(hash, a, "values", 3 * n, m) == DrawOf(hash, b, "values", 3 * n, m)
    && DrawOf(hash, a, "values", 3 * n + 1, m) == DrawOf(hash, b, "values", 3 * n + 1, m)
    && DrawOf(hash, a, "values", 3 * n + 2, m) == DrawOf(hash, b, "values", 3 * n + 2, m)
  }

  lemma {:induction false} ValuesDiffer(w: Words, hash: string -> nat, a: string, b: string, n: nat)
    requires PrefixFree(w.syllables)
    ensures ValueAt(w, hash, a, n) == ValueAt(w, hash, b, n) <==> SameDraws(w, hash, a, b, n)
  {
    var m := |w.syllables|;
    SpelledApart(
      w.syllables,
      DrawOf(hash, a, "values", 3 * n, m), DrawOf(hash, a, "values", 3 * n + 1, m),
      DrawOf(hash, a, "values", 3 * n + 2, m),
      DrawOf(hash, b, "values", 3 * n, m), DrawOf(hash, b, "values", 3 * n + 1, m),
      DrawOf(hash, b, "values", 3 * n + 2, m));
  }

  /** A fact keeps its value from one world to the other exactly when the two seeds draw it alike. */
  ghost predicate KeepsIfDrawnAlike(
      w: Words, hash: string -> nat, seedA: string, seedB: string, entities: seq<string>, a: World, b: World,
      e: nat, x: nat)
    requires e < |entities| && x < |w.attributes|
  {
    var key := entities[e] + "." + w.attributes[x];
    && key in a.facts && key in b.facts
    && (a.facts[key].value == b.facts[key].value <==> SameDraws(w, hash, seedA, seedB, e * |w.attributes| + x))
  }

  /**
   * The audit does change the world: of two worlds of one spec, a fact keeps its value exactly when
   * both value seeds take the same three draws for it. One different draw, and the value differs.
   */
  lemma {:induction false} AuditChangesValues(
      w: Words, hash: string -> nat, spec: Spec, seedA: string, seedB: string, bound: nat, a: World, b: World)
      returns (entities: seq<string>)
    requires BuiltFrom(w, hash, spec, seedA, bound, a) && BuiltFrom(w, hash, spec, seedB, bound, b)
    requires PrefixFree(w.syllables)
    ensures forall k :: k in a.facts ==> a.facts[k].slot.entity in entities && a.facts[k].slot.attribute in w.attributes
    ensures forall e, x :: 0 <= e < |entities| && 0 <= x < |w.attributes| ==>
      KeepsIfDrawnAlike(w, hash, seedA, seedB, entities, a, b, e, x)
  {
    WorldFacts(w, hash, spec, seedA, bound, a);
    WorldFacts(w, hash, spec, seedB, bound, b);
    entities := EntitiesIn(w, hash, spec, bound);
    KeptFacts(w, hash, seedA, seedB, entities, a, b);
  }

  lemma {:induction false} KeptFact(
      a: map<string, Fact>, b: map<string, Fact>, key: string, x: string, y: string, alike: bool)
    requires key in a && key in b && a[key].value == x && b[key].value == y && (x == y <==> alike)
    ensures a[key].value == b[key].value <==> alike
  {
  }

  lemma {:induction false} KeptPair(
      w: Words, hash: string -> nat, seedA: string, seedB: string, entities: seq<string>, a: World, b: World,
      e: nat, x: nat, n: nat)
    requires e < |entities| && x < |w.attributes| && n == e * |w.attributes| + x && PrefixFree(w.syllables)
    requires FactDrawn(w, hash, seedA, entities, a.facts, e, x) && FactDrawn(w, hash, seedB, entities, b.facts, e, x)
    ensures KeepsIfDrawnAlike(w, hash, seedA, seedB, entities, a, b, e, x)
  {
    ValuesDiffer(w, hash, seedA, seedB, n);
    KeptFact(a.facts, b.facts, entities[e] + "." + w.attributes[x],
             ValueAt(w, hash, seedA, n), ValueAt(w, hash, seedB, n), SameDraws(w, hash, seedA, seedB, n));
  }

  lemma {:induction false} FactDrawnAt(
      w: Words, hash: string -> nat, valueSeed: string, entities: seq<string>, facts: map<string, Fact>, e: nat, a: nat)
    requires FactsDrawn(w, hash, valueSeed, entities, facts) && e < |entities| && a < |w.attributes|
    ensures FactDrawn(w, hash, valueSeed, entities, facts, e, a)
  {
  }

  lemma {:induction false} KeptAt(
      w: Words, hash: string -> nat, seedA: string, seedB: string, entities: seq<string>, a: World, b: World,
      e: nat, x: nat)
    requires FactsDrawn(w, hash, seedA, entities, a.facts) && FactsDrawn(w, hash, seedB, entities, b.facts)
    requires PrefixFree(w.syllables) && e < |entities| && x < |w.attributes|
    ensures KeepsIfDrawnAlike(w, hash, seedA, seedB, entities, a, b, e, x)
  {
    FactDrawnAt(w, hash, seedA, entities, a.facts, e, x);
    FactDrawnAt(w, hash, seedB, entities, b.facts, e, x);
    var n := PairNumber(e, x, |w.attributes|);
    KeptPair(w, hash, seedA, seedB, entities, a, b, e, x, n);
  }

  lemma PairNumber(e: nat, x: nat, width: nat) returns (n: nat)
    ensures n == e * width + x
  {
    n := e * width + x;
  }

  lemma {:induction false} KeptFacts(
      w: Words, hash: string -> nat, seedA: string, seedB: string, entities: seq<string>, a: World, b: World)
    requires FactsDrawn(w, hash, seedA, entities, a.facts) && FactsDrawn(w, hash, seedB, entities, b.facts)
    requires PrefixFree(w.syllables)
    ensures forall e, x :: 0 <= e < |entities| && 0 <= x < |w.attributes| ==>
      KeepsIfDrawnAlike(w, hash, seedA, seedB, entities, a, b, e, x)
  {
    forall e, x | 0 <= e < |entities| && 0 <= x < |w.attributes|
      ensures KeepsIfDrawnAlike(w, hash, seedA, seedB, entities, a, b, e, x)
    {
      KeptAt(w, hash, seedA, seedB, entities, a, b, e, x);
    }
  }

  /** The first shipped syllable that begins with a letter. */
  function Beginning(c: char): nat {
    if c == 'k' then 0
    else if c == 'r' then 1
    else if c == 'm' then 2
    else if c == 't' then 3
    else if c == 's' then 4
    else if c == 'n' then 5
    else if c == 'q' then 6
    else if c == 'b' then 7
    else if c == 'd' then 8
    else if c == 'f' then 9
    else if c == 'i' then 10
    else if c == 'v' then 11
    else if c == 'z' then 12
    else if c == 'l' then 13
    else if c == 'p' then 14
    else if c == 'g' then 15
    else if c == 'o' then 16
    else if c == 'w' then 18
    else if c == 'j' then 19
    else 20
  }

  lemma FirstLetters(i: nat)
    requires i < 20
    ensures |SYLLABLES| == 20 && SYLLABLES[i] != ""
    ensures Beginning(SYLLABLES[i][0]) == if i == 17 then 3 else i
  {
    assert SYLLABLES[0][0] == 'k';
    assert SYLLABLES[1][0] == 'r';
    assert SYLLABLES[2][0] == 'm';
    assert SYLLABLES[3][0] == 't';
    assert SYLLABLES[4][0] == 's';
    assert SYLLABLES[5][0] == 'n';
    assert SYLLABLES[6][0] == 'q';
    assert SYLLABLES[7][0] == 'b';
    assert SYLLABLES[8][0] == 'd';
    assert SYLLABLES[9][0] == 'f';
    assert SYLLABLES[10][0] == 'i';
    assert SYLLABLES[11][0] == 'v';
    assert SYLLABLES[12][0] == 'z';
    assert SYLLABLES[13][0] == 'l';
    assert SYLLABLES[14][0] == 'p';
    assert SYLLABLES[15][0] == 'g';
    assert SYLLABLES[16][0] == 'o';
    assert SYLLABLES[17][0] == 't';
    assert SYLLABLES[18][0] == 'w';
    assert SYLLABLES[19][0] == 'j';
  }

  /** The shipped syllables begin with different letters, but for two that differ in the second. */
  lemma StandardIsPrefixFree()
    ensures PrefixFree(SYLLABLES)
  {
    assert SYLLABLES[3][1] == 'e' && SYLLABLES[17][1] == 'y';
    forall i, j | 0 <= i < |SYLLABLES| && 0 <= j < |SYLLABLES| && i != j
      ensures !(SYLLABLES[i] <= SYLLABLES[j])
    {
      FirstLetters(i);
      FirstLetters(j);
    }
  }

  // ----- What is refused -----

  lemma {:induction false} InsertNewGrows(x: string, s: seq<string>)
    requires x !in s
    ensures |InsertNew(x, s)| == |s| + 1
  {
    if s != [] {
      assert s[0] in s && s == [s[0]] + s[1..];
      InsertNewGrows(x, s[1..]);
    }
  }

  lemma {:induction false} SortedSetKeepsSize(names: seq<string>)
    requires Distinct(names)
    ensures |SortedSet(names)| == |names|
  {
    if names != [] {
      var n := |names| - 1;
      SortedSetKeepsSize(names[..n]);
      SortedSetIs(names[..n]);
      InsertNewGrows(names[n], SortedSet(names[..n]));
    }
  }

  lemma {:induction false} EntitiesAsAsked(w: Words, s: Stream, spec: Spec, bound: nat)
    requires Sound(w) && spec.entities >= 1 && spec.documents >= 1 && Drawable(w, s, spec, bound)
    ensures Entities(EntitiesOf(w, s, spec, bound)) && |EntitiesOf(w, s, spec, bound)| == spec.entities
  {
    DrawnAreEntities(w, s, spec.entities, bound);
    SortedSetSize(FirstNames(w, s, spec.entities));
    EntityCount(FirstNames(w, s, spec.entities), Refill(w, s, spec.entities), 0, bound);
  }

  lemma {:induction false} KeyCount(w: Words, entities: seq<string>)
    requires Sound(w) && Entities(entities)
    ensures |SortedSet(Keys(SlotsOf(w, entities)))| == |entities| * |w.attributes|
  {
    SlotsDistinct(w, entities);
    SlotsCount(w, entities);
    SortedSetKeepsSize(Keys(SlotsOf(w, entities)));
  }

  /** A spec is refused exactly for too few entities or documents, or for more graded keys than facts. */
  lemma {:induction false} RefusedExactly(w: Words, s: Streams, spec: Spec, bound: nat)
    requires Sound(w) && Drawable(w, s.structure, spec, bound)
    ensures Built(w, s, spec, bound) == Failure(TooFewEntitiesOrDocuments)
      <==> spec.entities < 1 || spec.documents < 1
    ensures Built(w, s, spec, bound) == Failure(TooManyGraded)
      <==> spec.entities >= 1 && spec.documents >= 1 && spec.graded > spec.entities * |w.attributes|
  {
    if spec.entities >= 1 && spec.documents >= 1 {
      EntitiesAsAsked(w, s.structure, spec, bound);
      KeyCount(w, EntitiesOf(w, s.structure, spec, bound));
    }
  }

  // ----- Graded keys -----

  /** The fact keys of a world, ascending. */
  ghost predicate KeysOf(world: World, keys: seq<string>) {
    Ascending(keys) && forall k :: k in keys <==> k in world.facts
  }

  /** The `k`-th key picked is the one of those left, in order, that the `k`-th draw of the value seed says. */
  ghost predicate PickedByDraw(
      hash: string -> nat, valueSeed: string, keys: seq<string>, picked: seq<string>, k: nat)
    requires k < |picked| <= |keys|
  {
    var draw := DrawOf(hash, valueSeed, "selection", k, |keys| - k);
    exists rest :: TakenAt(keys, picked, k, rest, draw)
  }

  lemma {:induction false} GradedSorted(s: Stream, keys: seq<string>, count: nat)
    requires count <= |keys|
    ensures var graded := Graded(s, keys, count);
      multiset(SampleOf(s, 0, keys, count)) == multiset(graded) && Sorted(graded, LexLe)
  {
    LexOrder();
    SortBySorted(SampleOf(s, 0, keys, count), LexLe);
  }

  lemma {:induction false} GradedFrom(hash: string -> nat, valueSeed: string, keys: seq<string>, count: nat)
      returns (picked: seq<string>)
    requires count <= |keys|
    ensures var graded := Graded(StreamOf(hash, valueSeed + "\0" + "selection"), keys, count);
      |picked| == count && multiset(picked) == multiset(graded) && Sorted(graded, LexLe)
    ensures forall k :: 0 <= k < count ==> PickedByDraw(hash, valueSeed, keys, picked, k)
  {
    var s := StreamOf(hash, valueSeed + "\0" + "selection");
    picked := SampleOf(s, 0, keys, count);
    GradedSorted(s, keys, count);
    forall k | 0 <= k < count ensures PickedByDraw(hash, valueSeed, keys, picked, k) {
      OnePick(hash, valueSeed, keys, count, picked, k);
    }
  }

  lemma {:induction false} OnePick(
      hash: string -> nat, valueSeed: string, keys: seq<string>, count: nat, picked: seq<string>, k: nat)
    requires k < count <= |keys| && |picked| == count
    requires picked == SampleOf(StreamOf(hash, valueSeed + "\0" + "selection"), 0, keys, count)
    ensures PickedByDraw(hash, valueSeed, keys, picked, k)
  {
    IndexIsDraw(hash, valueSeed, "selection", k, |keys| - k);
    var out, rest := SampledInOrder(StreamOf(hash, valueSeed + "\0" + "selection"), 0, keys, count, k);
  }

  /** The plan of a world, whose keys are the world's. */
  lemma {:induction false} PlanOf(w: Words, s: Streams, spec: Spec, bound: nat, world: World) returns (plan: Plan)
    requires Sound(w) && Drawable(w, s.structure, spec, bound) && Built(w, s, spec, bound) == Success(world)
    ensures spec.entities >= 1 && spec.documents >= 1
    ensures plan.words == w && plan.placement == s.placement && plan.documents == spec.documents
    ensures GoodPlan(plan) && GoodFacts(plan, world.facts) && KeysOf(world, plan.keys)
    ensures spec.graded <= |plan.keys| && world.graded == Graded(s.selection, plan.keys, spec.graded)
    ensures world == WorldOf(plan, world.facts, world.graded)
  {
    var entities := EntitiesOf(w, s.structure, spec, bound);
    plan := PlanFor(w, s.placement, spec.documents, entities);
    DrawnAreEntities(w, s.structure, spec.entities, bound);
    BuiltIs(w, s, spec, bound, world, entities);
    FactsIn(plan, FactsOf(plan, s.values), Graded(s.selection, plan.keys, spec.graded), s.values);
    PlanIsGood(w, s.placement, spec.documents, entities);
    FactsAreGood(plan, s.values);
    PlanMatches(plan, s.values);
  }

  /**
   * The graded keys: as many as asked for, in ascending order, and picked one after the other from the
   * fact keys by the value seed's own draws.
   */
  lemma {:induction false} GradedAreDrawn(
      w: Words, hash: string -> nat, spec: Spec, valueSeed: string, bound: nat, world: World)
      returns (keys: seq<string>, picked: seq<string>)
    requires BuiltFrom(w, hash, spec, valueSeed, bound, world)
    ensures KeysOf(world, keys) && Sorted(world.graded, LexLe) && multiset(picked) == multiset(world.graded)
    ensures |picked| == (if spec.graded < 0 then 0 else spec.graded) <= |keys|
    ensures forall k :: 0 <= k < |picked| ==> PickedByDraw(hash, valueSeed, keys, picked, k)
  {
    var s := StreamsOf(hash, spec.seed, valueSeed);
    var plan := PlanOf(w, s, spec, bound, world);
    keys := plan.keys;
    if spec.graded < 0 {
      picked := [];
    } else {
      picked := GradedFrom(hash, valueSeed, keys, spec.graded);
    }
  }

  // ----- Documents -----

  /** The text that states a fact. */
  function Says(fact: Fact): string {
    "the " + fact.slot.attribute + " of record " + fact.slot.entity + " is recorded as " + fact.value + "."
  }

  /** The document that the `n`-th key is sent to. */
  function HomeOf(hash: string -> nat, spec: Spec, n: nat): string
    requires spec.documents >= 1
  {
    DocId(DrawOf(hash, spec.seed, "placement", n, spec.documents))
  }

  ghost predicate StatedAtHome(hash: string -> nat, spec: Spec, world: World, keys: seq<string>, n: nat)
    requires n < |keys| && spec.documents >= 1
  {
    var id := HomeOf(hash, spec, n);
    && keys[n] in world.facts && id in world.documents
    && Contains(world.documents[id].body, Says(world.facts[keys[n]]))
    && id in Listed(world.index, world.facts[keys[n]].slot.entity)
    && id in Listed(world.index, world.facts[keys[n]].slot.attribute)
  }

  /** Of all documents only the home has a line about the `n`-th key. */
  ghost predicate OnlyAtHome(hash: string -> nat, spec: Spec, plan: Plan, n: nat)
    requires n < |plan.keys| && spec.documents >= 1 && plan.documents > 0
  {
    forall d :: 0 <= d < plan.documents ==>
      CountBy(Layout(plan, d), About(plan.keys[n])) == if DocId(d) == HomeOf(hash, spec, n) then 1 else 0
  }

  lemma {:induction false} KeyAtHome(
      hash: string -> nat, spec: Spec, plan: Plan, world: World, n: nat)
    requires spec.documents >= 1 && plan.documents == spec.documents
    requires plan.placement == StreamOf(hash, spec.seed + "\0" + "placement")
    requires GoodPlan(plan) && GoodFacts(plan, world.facts) && KeysOf(world, plan.keys)
    requires world == WorldOf(plan, world.facts, world.graded) && n < |plan.keys|
    ensures StatedAtHome(hash, spec, world, plan.keys, n) && OnlyAtHome(hash, spec, plan, n)
  {
    var key := plan.keys[n];
    assert key in plan.keys;
    var home := FactIsFindable(plan, world.facts, world.graded, key);
    IndexIsDraw(hash, spec.seed, "placement", n, spec.documents);
    assert home == DrawOf(hash, spec.seed, "placement", n, spec.documents);
    HomeStates(plan, world.facts, key, home);
    CollectedAt(Pages(plan, world.facts), plan.documents, home);
    forall d | 0 <= d < plan.documents
      ensures CountBy(Layout(plan, d), About(key)) == if DocId(d) == HomeOf(hash, spec, n) then 1 else 0
    {
      if DocId(d) == DocId(home) {
        DocIdInjective(d, home);
      }
    }
  }

  /**
   * Placement: the n-th fact key in ascending order is stated in the document that the spec's seed draws
   * for it at n, is found there by searching its entity or its attribute, and is stated nowhere else.
   */
  lemma {:induction false} HomesAreDrawn(
      w: Words, hash: string -> nat, spec: Spec, valueSeed: string, bound: nat, world: World) returns (plan: Plan)
    requires BuiltFrom(w, hash, spec, valueSeed, bound, world)
    ensures spec.documents >= 1 && plan.documents == spec.documents && KeysOf(world, plan.keys)
    ensures world == WorldOf(plan, world.facts, world.graded)
    ensures forall n :: 0 <= n < |plan.keys| ==> StatedAtHome(hash, spec, world, plan.keys, n)
    ensures forall n :: 0 <= n < |plan.keys| ==> OnlyAtHome(hash, spec, plan, n)
  {
    var s := StreamsOf(hash, spec.seed, valueSeed);
    plan := PlanOf(w, s, spec, bound, world);
    forall n | 0 <= n < |plan.keys|
      ensures StatedAtHome(hash, spec, world, plan.keys, n) && OnlyAtHome(hash, spec, plan, n)
    {
      KeyAtHome(hash, spec, plan, world, n);
    }
  }

  lemma {:induction false} IdsCount(count: nat)
    ensures |Ids(count)| == count && forall d :: 0 <= d < count ==> Ids(count)[d] == DocId(d)
  {
    if count > 0 {
      IdsCount(count - 1);
    }
  }

  /** Exactly the documents asked for, by identifier, and an order that lists each of them once. */
  lemma {:induction false} DocumentsAreListed(
      w: Words, hash: string -> nat, spec: Spec, valueSeed: string, bound: nat, world: World)
    requires BuiltFrom(w, hash, spec, valueSeed, bound, world)
    ensures forall id :: id in world.documents <==> exists d :: 0 <= d < spec.documents && id == DocId(d)
    ensures Distinct(world.order) && forall id :: id in world.order <==> id in world.documents
  {
    var s := StreamsOf(hash, spec.seed, valueSeed);
    var plan := PlanOf(w, s, spec, bound, world);
    PlanListed(plan, world);
  }

  lemma {:induction false} IdsAre(documents: nat, id: string)
    ensures id in Ids(documents) <==> exists d :: 0 <= d < documents && id == DocId(d)
  {
    var ids := Ids(documents);
    IdsCount(documents);
    if d :| 0 <= d < documents && id == DocId(d) {
      assert ids[d] in ids;
    }
  }

  lemma {:induction false} PlanListed(plan: Plan, world: World)
    requires plan.documents > 0 && world == WorldOf(plan, world.facts, world.graded)
    ensures forall id :: id in world.documents <==> exists d :: 0 <= d < plan.documents && id == DocId(d)
    ensures Distinct(world.order) && forall id :: id in world.order <==> id in world.documents
  {
    var ids := Ids(plan.documents);
    SortedSetIs(ids);
    OrderLists(world.order, SortedSet(ids), plan);
    PagesListed(plan, world.facts);
    forall id ensures id in ids <==> exists d :: 0 <= d < plan.documents && id == DocId(d) {
      IdsAre(plan.documents, id);
    }
  }

  lemma {:induction false} PagesListed(plan: Plan, facts: map<string, Fact>)
    requires plan.documents > 0
    ensures forall id :: id in Collect(Pages(plan, facts), plan.documents) <==> id in Ids(plan.documents)
  {
    CollectedIds(Pages(plan, facts), plan.documents);
  }

  lemma {:induction false} OrderLists(order: seq<string>, ids: seq<string>, plan: Plan)
    requires plan.documents > 0 && Ascending(ids)
    requires order == ShuffleOf(plan.placement, Start(plan, plan.documents), ids)
    ensures Distinct(order) && forall id :: id in order <==> id in ids
  {
    ShuffleKeepsItems(plan.placement, Start(plan, plan.documents), ids);
    forall id ensures id in order <==> id in ids {
      assert id in order <==> id in multiset(order);
      assert id in ids <==> id in multiset(ids);
    }
    forall i, j | 0 <= i < j < |order| ensures order[i] != order[j] {
      if order[i] == order[j] {
        RepeatCounts(order, i, j);
        DistinctCounts(ids, order[i]);
      }
    }
  }
}
