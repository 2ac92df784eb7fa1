/** src/enclave/environments/families/archive.py: what stands in each document of a built world. */
module ArchivePages {
  import opened Archive
  import opened ArchiveDraws
  import opened ArchiveLaws
  import opened Prf
  import opened Sorting
  import opened Strings
  import opened Vocabulary

  /** Two syllables of the vocabulary. */
  ghost predicate TwoSyllables(w: Words, token: string) {
    exists i, j :: 0 <= i < |w.syllables| && 0 <= j < |w.syllables| && token == w.syllables[i] + w.syllables[j]
  }

  lemma {:induction false} TokenIsTwo(w: Words, s: Stream, counter: nat)
    ensures TwoSyllables(w, Token(w, s, counter, 2))
  {
    var i, j := Index(s, counter, |w.syllables|), Index(s, counter + 1, |w.syllables|);
    assert Token(w, s, counter, 0) == "";
    assert Token(w, s, counter, 1) == w.syllables[i];
    assert Token(w, s, counter, 2) == w.syllables[i] + w.syllables[j];
  }

  /** A line that states a fact behind a token. */
  ghost predicate EntryLine(w: Words, fact: Fact, line: string) {
    exists token :: TwoSyllables(w, token) && line == "Entry " + token + ": " + Says(fact)
  }

  /** The `k`-th of `entries` states the fact of the `k`-th of `keys`. */
  ghost predicate States(w: Words, facts: map<string, Fact>, keys: seq<string>, entries: seq<string>) {
    |entries| == |keys| && forall k :: 0 <= k < |keys| ==> keys[k] in facts && EntryLine(w, facts[keys[k]], entries[k])
  }

  /** Those of the first `n` keys that placement sends to document `d`. */
  function SentTo(hash: string -> nat, spec: Spec, keys: seq<string>, d: nat): seq<string>
    requires spec.documents >= 1
  {
    if keys == [] then [] else
      var n := |keys| - 1;
      SentTo(hash, spec, keys[..n], d)
        + if DrawOf(hash, spec.seed, "placement", n, spec.documents) == d then [keys[n]] else []
  }

  lemma {:induction false} BucketIsSent(hash: string -> nat, spec: Spec, keys: seq<string>, d: nat)
    requires spec.documents >= 1
    ensures Bucket(StreamOf(hash, spec.seed + "\0" + "placement"), keys, spec.documents, d)
      == SentTo(hash, spec, keys, d)
  {
    if keys != [] {
      BucketIsSent(hash, spec, keys[..|keys| - 1], d);
      IndexIsDraw(hash, spec.seed, "placement", |keys| - 1, spec.documents);
    }
  }

  lemma {:induction false} Joined(token: string, stated: string, value: string)
    ensures "Entry " + token + ": " + stated + " " + value + "."
      == "Entry " + token + ": " + (stated + " " + value + ".")
  {
  }

  lemma {:induction false} EntryText(w: Words, facts: map<string, Fact>, token: string, slot: Slot)
    requires TwoSyllables(w, token) && Key(slot) in facts && facts[Key(slot)].slot == slot
    ensures EntryLine(w, facts[Key(slot)], Text(facts)(Entry(token, slot)))
  {
    var value := facts[Key(slot)].value;
    var stated := "the " + slot.attribute + " of record " + slot.entity + " is recorded as";
    EntryHead(token, slot, stated);
    Joined(token, stated, value);
    SaysIs(facts[Key(slot)], stated);
    assert Text(facts)(Entry(token, slot)) == Head(Entry(token, slot)) + " " + value + ".";
  }

  lemma {:induction false} EntryHead(token: string, slot: Slot, stated: string)
    requires stated == "the " + slot.attribute + " of record " + slot.entity + " is recorded as"
    ensures Head(Entry(token, slot)) == "Entry " + token + ": " + stated
  {
  }

  lemma {:induction false} SaysIs(fact: Fact, stated: string)
    requires stated == "the " + fact.slot.attribute + " of record " + fact.slot.entity + " is recorded as"
    ensures Says(fact) == stated + " " + fact.value + "."
  {
  }

  /** Every key has its fact. */
  ghost predicate Known(facts: map<string, Fact>, keys: seq<string>) { forall k :: k in keys ==> k in facts }

  /** The `k`-th line is about the slot of the `k`-th key. */
  ghost predicate EntryLines(w: Words, slots: map<string, Slot>, keys: seq<string>, lines: seq<Line>) {
    && |lines| == |keys|
    && forall k :: 0 <= k < |lines| ==>
      lines[k].Entry? && lines[k].slot == SlotIn(slots, keys[k]) && TwoSyllables(w, lines[k].token)
  }

  lemma {:induction false} EntriesAre(
      w: Words, s: Stream, counter: nat, keys: seq<string>, slots: map<string, Slot>) returns (lines: seq<Line>)
    ensures lines == Entries(w, s, counter, keys, slots) && EntryLines(w, slots, keys, lines)
  {
    if keys == [] {
      lines := [];
    } else {
      var n := |keys| - 1;
      var before := EntriesAre(w, s, counter, keys[..n], slots);
      TokenIsTwo(w, s, counter + 2 * n);
      lines := before + [Entry(Token(w, s, counter + 2 * n, 2), SlotIn(slots, keys[n]))];
    }
  }

  lemma {:induction false} EntryTexts(
      w: Words, slots: map<string, Slot>, facts: map<string, Fact>, keys: seq<string>, lines: seq<Line>)
    requires Matches(slots, facts) && Known(facts, keys) && EntryLines(w, slots, keys, lines)
    ensures States(w, facts, keys, Map(lines, Text(facts)))
  {
    forall k | 0 <= k < |keys|
      ensures keys[k] in facts && EntryLine(w, facts[keys[k]], Map(lines, Text(facts))[k])
    {
      assert keys[k] in keys;
      EntryText(w, facts, lines[k].token, lines[k].slot);
    }
  }

  /** `count` filler lines of the vocabulary. */
  ghost predicate Fill(w: Words, count: nat, fillers: seq<string>) {
    |fillers| == count && forall k :: 0 <= k < |fillers| ==> fillers[k] in w.filler
  }

  ghost predicate FillerLines(w: Words, lines: seq<Line>) {
    forall k :: 0 <= k < |lines| ==> lines[k].Filler? && lines[k].text in w.filler
  }

  lemma {:induction false} FillersAre(w: Words, s: Stream, counter: nat, count: nat) returns (lines: seq<Line>)
    ensures lines == Fillers(w, s, counter, count) && |lines| == count && FillerLines(w, lines)
  {
    if count == 0 {
      lines := [];
    } else {
      var before := FillersAre(w, s, counter, count - 1);
      var i := Index(s, counter + count - 1, |w.filler|);
      assert w.filler[i] in w.filler;
      lines := before + [Filler(w.filler[i])];
    }
  }

  lemma {:induction false} FillTexts(w: Words, lines: seq<Line>, facts: map<string, Fact>)
    requires FillerLines(w, lines)
    ensures Fill(w, |lines|, Map(lines, Text(facts)))
  {
  }

  lemma {:induction false} MapBoth<T, U>(a: seq<T>, b: seq<T>, all: seq<T>, f: T -> U)
    requires all == a + b
    ensures Map(all, f) == Map(a, f) + Map(b, f)
  {
  }

  /** A document: a title of two syllables, and lines in drawn order. */
  ghost predicate Page(w: Words, document: Document, lines: seq<string>) {
    document.body == Join(lines, '\n') && Titled(w, document.title)
  }

  ghost predicate Titled(w: Words, title: string) {
    exists token :: TwoSyllables(w, token) && title == "Folio " + token + " of the standing archive"
  }

  lemma {:induction false} TitleIs(w: Words, s: Stream, counter: nat)
    ensures Titled(w, Title(w, s, counter))
  {
    TokenIsTwo(w, s, counter);
  }

  /** The lines of a page: entries first, then fillers. */
  lemma {:induction false} LinesAre(
      w: Words, s: Stream, counter: nat, keys: seq<string>, slots: map<string, Slot>, facts: map<string, Fact>)
      returns (first: seq<Line>, rest: seq<Line>)
    requires Matches(slots, facts) && Known(facts, keys)
    ensures Lines(w, s, counter, keys, slots) == first + rest
    ensures States(w, facts, keys, Map(first, Text(facts)))
    ensures |rest| == w.fillerPerDocument && FillerLines(w, rest)
  {
    first := EntriesAre(w, s, counter, keys, slots);
    EntryTexts(w, slots, facts, keys, first);
    rest := FillersAre(w, s, counter + 2 * |keys|, w.fillerPerDocument);
  }

  lemma {:induction false} BucketKnown(plan: Plan, facts: map<string, Fact>, d: nat)
    requires plan.documents > 0 && Known(facts, plan.keys)
    ensures Known(facts, BucketOf(plan, d))
  {
    BucketMembers(plan.placement, plan.keys, plan.documents, d);
  }

  lemma {:induction false} PageText(
      w: Words, s: Stream, counter: nat, first: seq<Line>, rest: seq<Line>, all: seq<Line>, facts: map<string, Fact>)
      returns (entries: seq<string>, fillers: seq<string>, lines: seq<string>)
    requires all == first + rest && FillerLines(w, rest)
    ensures Page(w, PageAt(w, s, counter, all, Text(facts)), lines)
    ensures lines == ShuffleOf(s, counter, entries + fillers)
    ensures entries == Map(first, Text(facts)) && Fill(w, |rest|, fillers)
  {
    entries, fillers := Map(first, Text(facts)), Map(rest, Text(facts));
    MapBoth(first, rest, all, Text(facts));
    FillTexts(w, rest, facts);
    lines := PageIs(w, s, counter, all, Text(facts));
  }

  lemma {:induction false} PageIs(w: Words, s: Stream, counter: nat, lines: seq<Line>, text: Line -> string)
      returns (shuffled: seq<string>)
    ensures Page(w, PageAt(w, s, counter, lines, text), shuffled)
    ensures shuffled == ShuffleOf(s, counter, Map(lines, text))
  {
    shuffled := ShuffleOf(s, counter, Map(lines, text));
    TitleIs(w, s, counter + |lines|);
  }

  lemma {:induction false} PlanPage(plan: Plan, facts: map<string, Fact>, d: nat)
      returns (entries: seq<string>, fillers: seq<string>, lines: seq<string>)
    requires plan.documents > 0 && Matches(plan.slots, facts) && Known(facts, plan.keys)
    ensures Page(plan.words, DocumentOf(plan, facts, d), lines)
    ensures lines == ShuffleOf(plan.placement, ShuffleStart(plan, d), entries + fillers)
    ensures States(plan.words, facts, BucketOf(plan, d), entries)
    ensures Fill(plan.words, plan.words.fillerPerDocument, fillers)
  {
    BucketKnown(plan, facts, d);
    var first, rest := LinesAre(plan.words, plan.placement, Start(plan, d), BucketOf(plan, d), plan.slots, facts);
    entries, fillers, lines := PageText(
      plan.words, plan.placement, ShuffleStart(plan, d), first, rest, LinesOf(plan, d), facts);
  }

  /** The `k`-th of `laid` is the one of those left of `items`, in order, that the spec seed's draw says. */
  ghost predicate LaidByDraw(
      hash: string -> nat, seed: string, counter: nat, items: seq<string>, laid: seq<string>, k: nat)
    requires k < |items|
  {
    var draw := DrawOf(hash, seed, "placement", counter + k, |items| - k);
    exists rest :: TakenAt(items, laid, k, rest, draw)
  }

  /** All of them are, and none but them. */
  ghost predicate Laid(hash: string -> nat, seed: string, counter: nat, items: seq<string>, laid: seq<string>) {
    && multiset(laid) == multiset(items)
    && forall k :: 0 <= k < |items| ==> LaidByDraw(hash, seed, counter, items, laid, k)
  }

  lemma {:induction false} OneIsLaid(
      hash: string -> nat, seed: string, counter: nat, items: seq<string>, laid: seq<string>, k: nat)
    requires k < |items| && laid == ShuffleOf(StreamOf(hash, seed + "\0" + "placement"), counter, items)
    ensures LaidByDraw(hash, seed, counter, items, laid, k)
  {
    IndexIsDraw(hash, seed, "placement", counter + k, |items| - k);
    var out, rest := ShuffledInOrder(StreamOf(hash, seed + "\0" + "placement"), counter, items, k);
  }

  lemma {:induction false} ShuffleIsLaid(
      hash: string -> nat, seed: string, counter: nat, items: seq<string>, laid: seq<string>)
    requires laid == ShuffleOf(StreamOf(hash, seed + "\0" + "placement"), counter, items)
    ensures Laid(hash, seed, counter, items, laid)
  {
    ShuffleKeepsItems(StreamOf(hash, seed + "\0" + "placement"), counter, items);
    forall k | 0 <= k < |items| ensures LaidByDraw(hash, seed, counter, items, laid, k) {
      OneIsLaid(hash, seed, counter, items, laid, k);
    }
  }

  /** The placement draws taken before document `d`: one a key, and what each document before it took. */
  function DrawsBefore(w: Words, hash: string -> nat, spec: Spec, keys: seq<string>, d: nat): nat
    requires spec.documents >= 1
  {
    if d == 0 then |keys|
    else DrawsBefore(w, hash, spec, keys, d - 1)
         + 3 * |SentTo(hash, spec, keys, d - 1)| + 2 * w.fillerPerDocument + 2
  }

  lemma {:induction false} StartIsDrawsBefore(hash: string -> nat, spec: Spec, plan: Plan, d: nat)
    requires spec.documents >= 1 && plan.documents == spec.documents
    requires plan.placement == StreamOf(hash, spec.seed + "\0" + "placement")
    ensures Start(plan, d) == DrawsBefore(plan.words, hash, spec, plan.keys, d)
  {
    if d > 0 {
      StartIsDrawsBefore(hash, spec, plan, d - 1);
      BucketIsSent(hash, spec, plan.keys, d - 1);
    }
  }

  /** The documents are listed in the order that the last placement draws say. */
  lemma {:induction false} OrderIsLaid(
      w: Words, hash: string -> nat, spec: Spec, valueSeed: string, bound: nat, world: World)
      returns (keys: seq<string>, ids: seq<string>)
    requires BuiltFrom(w, hash, spec, valueSeed, bound, world)
    ensures spec.documents >= 1 && KeysOf(world, keys)
    ensures Ascending(ids) && forall id :: id in ids <==> id in world.documents
    ensures Laid(hash, spec.seed, DrawsBefore(w, hash, spec, keys, spec.documents), ids, world.order)
  {
    var plan := PlanOf(w, StreamsOf(hash, spec.seed, valueSeed), spec, bound, world);
    keys, ids := plan.keys, SortedSet(Ids(plan.documents));
    SortedSetIs(Ids(plan.documents));
    PagesListed(plan, world.facts);
    StartIsDrawsBefore(hash, spec, plan, plan.documents);
    ShuffleIsLaid(hash, spec.seed, Start(plan, plan.documents), ids, world.order);
  }

  /** Where the draws that lay the lines of document `d` start: behind its tokens and its fillers. */
  function LaidAt(w: Words, hash: string -> nat, spec: Spec, keys: seq<string>, d: nat): nat
    requires spec.documents >= 1
  {
    DrawsBefore(w, hash, spec, keys, d) + 2 * |SentTo(hash, spec, keys, d)| + w.fillerPerDocument
  }

  lemma {:induction false} LaidAtIs(hash: string -> nat, spec: Spec, plan: Plan, d: nat)
    requires spec.documents >= 1 && plan.documents == spec.documents
    requires plan.placement == StreamOf(hash, spec.seed + "\0" + "placement")
    ensures ShuffleStart(plan, d) == LaidAt(plan.words, hash, spec, plan.keys, d)
    ensures BucketOf(plan, d) == SentTo(hash, spec, plan.keys, d)
  {
    BucketIsSent(hash, spec, plan.keys, d);
    StartIsDrawsBefore(hash, spec, plan, d);
  }

  lemma {:induction false} PlanHolds(
      hash: string -> nat, spec: Spec, plan: Plan, facts: map<string, Fact>, d: nat)
      returns (entries: seq<string>, fillers: seq<string>, lines: seq<string>)
    requires spec.documents >= 1 && plan.documents == spec.documents
    requires plan.placement == StreamOf(hash, spec.seed + "\0" + "placement")
    requires Matches(plan.slots, facts) && Known(facts, plan.keys)
    ensures Page(plan.words, DocumentOf(plan, facts, d), lines)
    ensures States(plan.words, facts, SentTo(hash, spec, plan.keys, d), entries)
    ensures Fill(plan.words, plan.words.fillerPerDocument, fillers)
    ensures Laid(hash, spec.seed, LaidAt(plan.words, hash, spec, plan.keys, d), entries + fillers, lines)
  {
    LaidAtIs(hash, spec, plan, d);
    entries, fillers, lines := PlanPage(plan, facts, d);
    ShuffleIsLaid(hash, spec.seed, ShuffleStart(plan, d), entries + fillers, lines);
  }

  /**
   * What document `d` of a built world holds: one entry line for each fact key that placement sends there,
   * as many filler lines as the vocabulary says, and nothing else, in the order that the placement draws
   * after them say, under a title.
   */
  lemma {:induction false} DocumentHolds(
      w: Words, hash: string -> nat, spec: Spec, valueSeed: string, bound: nat, world: World, d: nat)
      returns (keys: seq<string>, entries: seq<string>, fillers: seq<string>, lines: seq<string>)
    requires BuiltFrom(w, hash, spec, valueSeed, bound, world) && d < spec.documents
    ensures KeysOf(world, keys) && DocId(d) in world.documents
    ensures Page(w, world.documents[DocId(d)], lines)
    ensures States(w, world.facts, SentTo(hash, spec, keys, d), entries) && Fill(w, w.fillerPerDocument, fillers)
    ensures Laid(hash, spec.seed, LaidAt(w, hash, spec, keys, d), entries + fillers, lines)
  {
    var plan := PlanOf(w, StreamsOf(hash, spec.seed, valueSeed), spec, bound, world);
    keys := plan.keys;
    entries, fillers, lines := PlanHolds(hash, spec, plan, world.facts, d);
    CollectedAt(Pages(plan, world.facts), plan.documents, d);
  }
}
