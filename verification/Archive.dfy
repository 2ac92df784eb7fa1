/** src/enclave/environments/families/archive.py: building a world of documents from two seeds. */
module Archive {
  import opened Prf
  import opened Sorting
  import opened Strings
  import opened Vocabulary
  import opened Wrappers

  datatype Spec = Spec(seed: string, entities: int, documents: int, graded: int)

  /** A pair that a fact is about. */
  datatype Slot = Slot(entity: string, attribute: string)

  datatype Fact = Fact(slot: Slot, value: string)

  datatype Document = Document(title: string, body: string)

  datatype World = World(
    documents: map<string, Document>, order: seq<string>, facts: map<string, Fact>,
    graded: seq<string>, index: map<string, seq<string>>)

  datatype ArchiveError =
    | TooFewEntitiesOrDocuments | TooManyGraded
    | EmptyTerm | NoSuchDocument | UnsupportedAction | GradedKeyAbsent

  function Key(slot: Slot): string { slot.entity + "." + slot.attribute }

  // ----- Facts -----

  function SlotsFor(w: Words, entity: string): seq<Slot> {
    Map(w.attributes, (attribute: string) => Slot(entity, attribute))
  }

  /** Every entity with every attribute, in the order the facts are drawn. */
  function SlotsOf(w: Words, entities: seq<string>): seq<Slot> {
    if entities == [] then []
    else SlotsOf(w, entities[..|entities| - 1]) + SlotsFor(w, entities[|entities| - 1])
  }

  function Keys(slots: seq<Slot>): seq<string> { Map(slots, Key) }

  /** The value of the `n`-th fact. */
  function Values(w: Words, s: Stream): nat -> string { (n: nat) => Token(w, s, 3 * n, 3) }

  function Facts(slots: seq<Slot>, value: nat -> string): map<string, Fact> {
    if slots == [] then map[] else
      var n := |slots| - 1;
      Facts(slots[..n], value)[Key(slots[n]) := Fact(slots[n], value(n))]
  }

  /** What of the facts does not depend on their values. */
  function SlotMap(slots: seq<Slot>): map<string, Slot> {
    if slots == [] then map[] else
      var n := |slots| - 1;
      SlotMap(slots[..n])[Key(slots[n]) := slots[n]]
  }

  method PlantFacts(w: Words, rng: SeededRandom, slots: seq<Slot>) returns (facts: map<string, Fact>)
    requires rng.counter == 0
    modifies rng
    ensures facts == Facts(slots, Values(w, rng.draws))
  {
    facts := map[];
    for n := 0 to |slots|
      invariant rng.counter == 3 * n
      invariant facts == Facts(slots[..n], Values(w, rng.draws))
    {
      var token := DrawToken(w, rng, 3);
      facts := facts[Key(slots[n]) := Fact(slots[n], token)];
      assert slots[..n + 1][..n] == slots[..n];
    }
    assert slots[..|slots|] == slots;
  }

  /** The keys that are graded, ascending. */
  function Graded(s: Stream, keys: seq<string>, count: int): seq<string>
    requires count <= |keys|
  {
    if count < 0 then [] else SortBy(SampleOf(s, 0, keys, count), LexLe)
  }

  method DrawGraded(rng: SeededRandom, keys: seq<string>, count: int) returns (graded: seq<string>)
    requires count <= |keys| && rng.counter == 0
    modifies rng
    ensures graded == Graded(rng.draws, keys, count)
  {
    var sample := rng.Sample(keys, count);
    graded := SortBy(sample.value, LexLe);
  }

  // ----- Which document a fact goes to -----

  function Bucket(s: Stream, keys: seq<string>, documents: nat, d: nat): seq<string>
    requires documents > 0
  {
    if keys == [] then [] else
      var n := |keys| - 1;
      Bucket(s, keys[..n], documents, d) + if Index(s, n, documents) == d then [keys[n]] else []
  }

  method Place(rng: SeededRandom, keys: seq<string>, documents: nat) returns (buckets: seq<seq<string>>)
    requires documents > 0 && rng.counter == 0
    modifies rng
    ensures |buckets| == documents && rng.counter == |keys|
    ensures forall d :: 0 <= d < documents ==> buckets[d] == Bucket(rng.draws, keys, documents, d)
  {
    buckets := seq(documents, _ => []);
    for n := 0 to |keys|
      invariant |buckets| == documents && rng.counter == n
      invariant forall d :: 0 <= d < documents ==> buckets[d] == Bucket(rng.draws, keys[..n], documents, d)
    {
      var d := rng.Below(documents);
      assert keys[..n + 1][..n] == keys[..n];
      buckets := buckets[d.value := buckets[d.value] + [keys[n]]];
    }
    assert keys[..|keys|] == keys;
  }

  // ----- Documents -----

  datatype Line = Entry(token: string, slot: Slot) | Filler(text: string)

  /** A line up to its value. */
  function Head(line: Line): string {
    match line
    case Filler(text) => text
    case Entry(token, slot) =>
      "Entry " + token + ": the " + slot.attribute + " of record " + slot.entity + " is recorded as"
  }

  function ValueIn(facts: map<string, Fact>, key: string): string {
    if key in facts then facts[key].value else ""
  }

  function Text(facts: map<string, Fact>): Line -> string {
    (line: Line) =>
      if line.Filler? then line.text else Head(line) + " " + ValueIn(facts, Key(line.slot)) + "."
  }

  function SlotIn(slots: map<string, Slot>, key: string): Slot {
    if key in slots then slots[key] else Slot("", "")
  }

  function Entries(w: Words, s: Stream, counter: nat, keys: seq<string>, slots: map<string, Slot>): (r: seq<Line>)
    ensures |r| == |keys|
  {
    if keys == [] then [] else
      var n := |keys| - 1;
      Entries(w, s, counter, keys[..n], slots) + [Entry(Token(w, s, counter + 2 * n, 2), SlotIn(slots, keys[n]))]
  }

  function Fillers(w: Words, s: Stream, counter: nat, count: nat): (r: seq<Line>)
    ensures |r| == count
  {
    if count == 0 then []
    else Fillers(w, s, counter, count - 1) + [Filler(w.filler[Index(s, counter + count - 1, |w.filler|)])]
  }

  function Lines(w: Words, s: Stream, counter: nat, keys: seq<string>, slots: map<string, Slot>): (r: seq<Line>)
    ensures |r| == |keys| + w.fillerPerDocument
  {
    Entries(w, s, counter, keys, slots) + Fillers(w, s, counter + 2 * |keys|, w.fillerPerDocument)
  }

  function Title(w: Words, s: Stream, counter: nat): string {
    "Folio " + Token(w, s, counter, 2) + " of the standing archive"
  }

  /** Draws spent on a document of `k` facts. */
  function DocumentDraws(w: Words, k: nat): nat { 3 * k + 2 * w.fillerPerDocument + 2 }

  /** The facts have the slots they should. */
  ghost predicate Matches(slots: map<string, Slot>, facts: map<string, Fact>) {
    && facts.Keys == slots.Keys
    && forall k :: k in slots ==> facts[k].slot == slots[k] && Key(slots[k]) == k
  }

  lemma EntriesOneMore(w: Words, s: Stream, counter: nat, keys: seq<string>, slots: map<string, Slot>, n: nat)
    requires n < |keys|
    ensures Entries(w, s, counter, keys[..n + 1], slots)
      == Entries(w, s, counter, keys[..n], slots) + [Entry(Token(w, s, counter + 2 * n, 2), SlotIn(slots, keys[n]))]
  {
    assert keys[..n + 1][..n] == keys[..n];
  }

  method WriteEntries(
      w: Words, rng: SeededRandom, keys: seq<string>, ghost slots: map<string, Slot>, facts: map<string, Fact>)
      returns (lines: seq<Line>)
    requires Matches(slots, facts) && forall k :: k in keys ==> k in facts
    modifies rng
    ensures lines == Entries(w, rng.draws, old(rng.counter), keys, slots)
    ensures rng.counter == old(rng.counter) + 2 * |keys|
  {
    lines := [];
    ghost var start := rng.counter;
    for n := 0 to |keys|
      invariant rng.counter == start + 2 * n
      invariant lines == Entries(w, rng.draws, start, keys[..n], slots)
    {
      var token := DrawToken(w, rng, 2);
      lines := lines + [Entry(token, facts[keys[n]].slot)];
      EntriesOneMore(w, rng.draws, start, keys, slots, n);
    }
    assert keys[..|keys|] == keys;
  }

  method WriteFillers(w: Words, rng: SeededRandom) returns (lines: seq<Line>)
    modifies rng
    ensures lines == Fillers(w, rng.draws, old(rng.counter), w.fillerPerDocument)
    ensures rng.counter == old(rng.counter) + w.fillerPerDocument
  {
    lines := [];
    for n := 0 to w.fillerPerDocument
      invariant rng.counter == old(rng.counter) + n
      invariant lines == Fillers(w, rng.draws, old(rng.counter), n)
    {
      var text := rng.Choice(w.filler);
      lines := lines + [Filler(text.value)];
    }
  }

  method WriteLines(
      w: Words, rng: SeededRandom, keys: seq<string>, ghost slots: map<string, Slot>, facts: map<string, Fact>)
      returns (lines: seq<Line>)
    requires Matches(slots, facts) && forall k :: k in keys ==> k in facts
    modifies rng
    ensures lines == Lines(w, rng.draws, old(rng.counter), keys, slots)
    ensures rng.counter == old(rng.counter) + 2 * |keys| + w.fillerPerDocument
  {
    var entries := WriteEntries(w, rng, keys, slots, facts);
    var fillers := WriteFillers(w, rng);
    lines := entries + fillers;
  }

  method WriteTitle(w: Words, rng: SeededRandom) returns (title: string)
    modifies rng
    ensures title == Title(w, rng.draws, old(rng.counter)) && rng.counter == old(rng.counter) + 2
  {
    var token := DrawToken(w, rng, 2);
    title := "Folio " + token + " of the standing archive";
  }

  /** A document from its lines: shuffled first, and only then given a title. */
  function PageAt(w: Words, s: Stream, counter: nat, lines: seq<Line>, text: Line -> string): Document {
    Document(Title(w, s, counter + |lines|), Join(ShuffleOf(s, counter, Map(lines, text)), '\n'))
  }

  method WritePage(w: Words, rng: SeededRandom, lines: seq<Line>, text: Line -> string) returns (document: Document)
    modifies rng
    ensures document == PageAt(w, rng.draws, old(rng.counter), lines, text)
    ensures rng.counter == old(rng.counter) + |lines| + 2
  {
    var shuffled := rng.Shuffled(Map(lines, text));
    var title := WriteTitle(w, rng);
    document := Document(title, Join(shuffled, '\n'));
  }

  /** `f"doc-{index:03d}"`. */
  function DocId(d: nat): string {
    "doc-" + (if d < 10 then "00" else if d < 100 then "0" else "") + Decimal(d)
  }

  function Ids(documents: nat): seq<string> {
    if documents == 0 then [] else Ids(documents - 1) + [DocId(documents - 1)]
  }

  /** Everything about a world that its values do not enter. */
  datatype Plan = Plan(
    words: Words, placement: Stream, documents: nat, entities: seq<string>, slots: map<string, Slot>, keys: seq<string>)

  function BucketOf(plan: Plan, d: nat): seq<string>
    requires plan.documents > 0
  {
    Bucket(plan.placement, plan.keys, plan.documents, d)
  }

  /** Where the draws for document `d` start. */
  function Start(plan: Plan, d: nat): nat
    requires plan.documents > 0
  {
    if d == 0 then |plan.keys| else Start(plan, d - 1) + DocumentDraws(plan.words, |BucketOf(plan, d - 1)|)
  }

  function LinesOf(plan: Plan, d: nat): (lines: seq<Line>)
    requires plan.documents > 0
  {
    Lines(plan.words, plan.placement, Start(plan, d), BucketOf(plan, d), plan.slots)
  }

  /** Where the draws that shuffle document `d` start. */
  function ShuffleStart(plan: Plan, d: nat): nat
    requires plan.documents > 0
  {
    Start(plan, d) + 2 * |BucketOf(plan, d)| + plan.words.fillerPerDocument
  }

  function DocumentOf(plan: Plan, facts: map<string, Fact>, d: nat): Document
    requires plan.documents > 0
  {
    PageAt(plan.words, plan.placement, ShuffleStart(plan, d), LinesOf(plan, d), Text(facts))
  }

  /** The documents by position. */
  function Pages(plan: Plan, facts: map<string, Fact>): nat -> Document
    requires plan.documents > 0
  {
    (d: nat) => DocumentOf(plan, facts, d)
  }

  function Collect(pages: nat -> Document, count: nat): map<string, Document> {
    if count == 0 then map[] else Collect(pages, count - 1)[DocId(count - 1) := pages(count - 1)]
  }

  lemma {:induction false} BucketMembers(s: Stream, keys: seq<string>, documents: nat, d: nat)
    requires documents > 0
    ensures forall k :: k in Bucket(s, keys, documents, d) ==> k in keys
  {
    if keys != [] {
      BucketMembers(s, keys[..|keys| - 1], documents, d);
    }
  }

  /** The facts are those the plan has keys for. */
  ghost predicate Plotted(plan: Plan, facts: map<string, Fact>) {
    plan.documents > 0 && Matches(plan.slots, facts) && forall k :: k in plan.keys ==> k in facts
  }

  method WriteDocument(rng: SeededRandom, bucket: seq<string>, plan: Plan, facts: map<string, Fact>, ghost d: nat)
      returns (document: Document)
    requires Plotted(plan, facts) && rng.draws == plan.placement && rng.counter == Start(plan, d)
    requires bucket == BucketOf(plan, d)
    modifies rng
    ensures document == DocumentOf(plan, facts, d) && rng.counter == Start(plan, d + 1)
  {
    BucketMembers(plan.placement, plan.keys, plan.documents, d);
    var lines := WriteLines(plan.words, rng, bucket, plan.slots, facts);
    assert lines == LinesOf(plan, d) && rng.counter == ShuffleStart(plan, d);
    document := WritePage(plan.words, rng, lines, Text(facts));
  }

  /** The same, as the `d`-th of a plan's pages. */
  method WriteNext(
      rng: SeededRandom, bucket: seq<string>, plan: Plan, facts: map<string, Fact>, ghost d: nat,
      documents: map<string, Document>, id: string)
      returns (more: map<string, Document>)
    requires Plotted(plan, facts) && rng.draws == plan.placement && rng.counter == Start(plan, d)
    requires bucket == BucketOf(plan, d) && id == DocId(d)
    requires documents == Collect(Pages(plan, facts), d)
    modifies rng
    ensures more == Collect(Pages(plan, facts), d + 1) && rng.counter == Start(plan, d + 1)
  {
    var document := WriteDocument(rng, bucket, plan, facts, d);
    CollectOneMore(Pages(plan, facts), d, document);
    more := documents[id := document];
  }

  method WriteDocuments(rng: SeededRandom, buckets: seq<seq<string>>, plan: Plan, facts: map<string, Fact>)
      returns (documents: map<string, Document>)
    requires Plotted(plan, facts) && rng.draws == plan.placement && rng.counter == Start(plan, 0)
    requires |buckets| == plan.documents && forall d :: 0 <= d < |buckets| ==> buckets[d] == BucketOf(plan, d)
    modifies rng
    ensures documents == Collect(Pages(plan, facts), plan.documents)
    ensures rng.counter == Start(plan, plan.documents)
  {
    documents := map[];
    for d := 0 to |buckets|
      invariant rng.counter == Start(plan, d)
      invariant documents == Collect(Pages(plan, facts), d)
    {
      documents := WriteNext(rng, buckets[d], plan, facts, d, documents, DocId(d));
    }
  }

  lemma CollectOneMore(pages: nat -> Document, d: nat, document: Document)
    requires document == pages(d)
    ensures Collect(pages, d + 1) == Collect(pages, d)[DocId(d) := document]
  {
  }

  // ----- The search index -----

  function Haystack(document: Document): string { Fold(document.title + "\n" + document.body) }

  /** A naive scan: the documents, in order, whose folded text contains the term. */
  function Scan(ids: seq<string>, documents: map<string, Document>, term: string): seq<string> {
    if ids == [] then [] else
      var n := |ids| - 1;
      Scan(ids[..n], documents, term) + if Found(documents, ids[n], term) then [ids[n]] else []
  }

  predicate Found(documents: map<string, Document>, id: string, term: string) {
    id in documents && Contains(Haystack(documents[id]), term)
  }

  function Listed(index: map<string, seq<string>>, term: string): seq<string> {
    if term in index then index[term] else []
  }

  ghost predicate NoEmptyLists(index: map<string, seq<string>>) {
    forall t :: t in index ==> index[t] != []
  }

  /** `after` lists what `index` does, and one document more for those of the terms it contains. */
  ghost predicate Adds(
      index: map<string, seq<string>>, after: map<string, seq<string>>,
      terms: seq<string>, haystack: string, id: string)
  {
    && NoEmptyLists(after)
    && forall t :: Listed(after, t) == Listed(index, t) + if t in terms && Contains(haystack, t) then [id] else []
  }

  lemma AddsOneMore(
      index: map<string, seq<string>>, r: map<string, seq<string>>,
      terms: seq<string>, term: string, haystack: string, id: string)
    requires Adds(index, r, terms, haystack, id) && term !in terms
    ensures Adds(index, if Contains(haystack, term) then r[term := Listed(r, term) + [id]] else r,
                 terms + [term], haystack, id)
  {
    var after := if Contains(haystack, term) then r[term := Listed(r, term) + [id]] else r;
    forall t
      ensures Listed(after, t)
        == Listed(index, t) + if t in terms + [term] && Contains(haystack, t) then [id] else []
    {
      assert Listed(r, t) == Listed(index, t) + if t in terms && Contains(haystack, t) then [id] else [];
    }
  }

  /** `index_by_term.setdefault(term, []).append(doc_id)` where the term is found. */
  method Mention(index: map<string, seq<string>>, terms: seq<string>, haystack: string, id: string)
      returns (r: map<string, seq<string>>)
    requires NoEmptyLists(index) && Distinct(terms)
    ensures Adds(index, r, terms, haystack, id)
  {
    r := index;
    for n := 0 to |terms|
      invariant Adds(index, r, terms[..n], haystack, id)
    {
      AddsOneMore(index, r, terms[..n], terms[n], haystack, id);
      assert terms[..n + 1] == terms[..n] + [terms[n]];
      if Contains(haystack, terms[n]) {
        r := r[terms[n] := Listed(r, terms[n]) + [id]];
      }
    }
    assert terms[..|terms|] == terms;
  }

  function Terms(w: Words, entities: seq<string>): seq<string> { Map(entities, Fold) + w.attributes }

  /** For each term the index lists what a scan finds, and nothing for anything else. */
  ghost predicate IndexIsScan(
      index: map<string, seq<string>>, ids: seq<string>, documents: map<string, Document>, terms: seq<string>)
  {
    && NoEmptyLists(index)
    && forall t :: Listed(index, t) == if t in terms then Scan(ids, documents, t) else []
  }

  method BuildIndex(documents: map<string, Document>, ids: seq<string>, terms: seq<string>)
      returns (index: map<string, seq<string>>)
    requires Distinct(terms) && forall id :: id in ids ==> id in documents
    ensures IndexIsScan(index, ids, documents, terms)
  {
    index := map[];
    for n := 0 to |ids|
      invariant IndexIsScan(index, ids[..n], documents, terms)
    {
      var more := Mention(index, terms, Haystack(documents[ids[n]]), ids[n]);
      ScansOneMore(index, more, ids[..n], ids[n], documents, terms);
      assert ids[..n + 1] == ids[..n] + [ids[n]];
      index := more;
    }
    assert ids[..|ids|] == ids;
  }

  lemma ScansOneMore(
      index: map<string, seq<string>>, more: map<string, seq<string>>,
      ids: seq<string>, id: string, documents: map<string, Document>, terms: seq<string>)
    requires IndexIsScan(index, ids, documents, terms) && id in documents
    requires Adds(index, more, terms, Haystack(documents[id]), id)
    ensures IndexIsScan(more, ids + [id], documents, terms)
  {
    assert (ids + [id])[..|ids|] == ids;
    forall t ensures Listed(more, t) == if t in terms then Scan(ids + [id], documents, t) else [] {
      assert Listed(index, t) == if t in terms then Scan(ids, documents, t) else [];
    }
  }

  function IndexOf(ids: seq<string>, documents: map<string, Document>, terms: seq<string>): map<string, seq<string>> {
    map t | t in terms && Scan(ids, documents, t) != [] :: Scan(ids, documents, t)
  }

  lemma IndexIsUnique(
      index: map<string, seq<string>>, ids: seq<string>, documents: map<string, Document>, terms: seq<string>)
    requires IndexIsScan(index, ids, documents, terms)
    ensures index == IndexOf(ids, documents, terms)
  {
    forall t ensures Listed(index, t) == Listed(IndexOf(ids, documents, terms), t) {
      assert Listed(index, t) == if t in terms then Scan(ids, documents, t) else [];
    }
    SameLists(index, IndexOf(ids, documents, terms));
  }

  lemma SameLists(a: map<string, seq<string>>, b: map<string, seq<string>>)
    requires NoEmptyLists(a) && NoEmptyLists(b) && forall t :: Listed(a, t) == Listed(b, t)
    ensures a == b
  {
    forall t ensures t in a <==> t in b {
      assert Listed(a, t) == Listed(b, t);
    }
    forall t | t in a ensures a[t] == b[t] {
      assert Listed(a, t) == Listed(b, t);
    }
  }

  // ----- The whole world -----

  /** The four sources of draws. Only `values` and `selection` depend on the value seed. */
  datatype Streams = Streams(structure: Stream, values: Stream, placement: Stream, selection: Stream)

  function StreamsOf(hash: string -> nat, seed: string, valueSeed: string): Streams {
    Streams(StreamOf(hash, seed + "\0" + "structure"), StreamOf(hash, valueSeed + "\0" + "values"),
            StreamOf(hash, seed + "\0" + "placement"), StreamOf(hash, valueSeed + "\0" + "selection"))
  }

  predicate Drawable(w: Words, structure: Stream, spec: Spec, bound: nat) {
    spec.entities >= 1 && spec.documents >= 1 ==>
      Supplies(FirstNames(w, structure, spec.entities), Refill(w, structure, spec.entities), bound)
  }

  function EntitiesOf(w: Words, structure: Stream, spec: Spec, bound: nat): seq<string>
    requires spec.entities >= 1 && spec.documents >= 1 && Drawable(w, structure, spec, bound)
  {
    EntitiesFrom(FirstNames(w, structure, spec.entities), Refill(w, structure, spec.entities), 0, bound)
  }

  function PlanFor(w: Words, placement: Stream, documents: nat, entities: seq<string>): Plan {
    var slots := SlotsOf(w, entities);
    Plan(w, placement, documents, entities, SlotMap(slots), SortedSet(Keys(slots)))
  }

  function WorldOf(plan: Plan, facts: map<string, Fact>, graded: seq<string>): World
    requires plan.documents > 0
  {
    var ids := SortedSet(Ids(plan.documents));
    var documents := Collect(Pages(plan, facts), plan.documents);
    World(documents, ShuffleOf(plan.placement, Start(plan, plan.documents), ids), facts, graded,
          IndexOf(ids, documents, Terms(plan.words, plan.entities)))
  }

  function FactsOf(plan: Plan, values: Stream): map<string, Fact> {
    Facts(SlotsOf(plan.words, plan.entities), Values(plan.words, values))
  }

  function Built(w: Words, s: Streams, spec: Spec, bound: nat): Result<World, ArchiveError>
    requires Drawable(w, s.structure, spec, bound)
  {
    if spec.entities < 1 || spec.documents < 1 then Failure(TooFewEntitiesOrDocuments) else
    var plan := PlanFor(w, s.placement, spec.documents, EntitiesOf(w, s.structure, spec, bound));
    if spec.graded > |plan.keys| then Failure(TooManyGraded) else
    Success(WorldOf(plan, FactsOf(plan, s.values), Graded(s.selection, plan.keys, spec.graded)))
  }

  lemma {:induction false} FactsMatch(slots: seq<Slot>, value: nat -> string)
    ensures Matches(SlotMap(slots), Facts(slots, value))
    ensures forall k :: k in SlotMap(slots) <==> k in Keys(slots)
  {
    if slots != [] {
      var n := |slots| - 1;
      FactsMatch(slots[..n], value);
      assert Keys(slots) == Keys(slots[..n]) + [Key(slots[n])];
    }
  }

  lemma PlanMatches(plan: Plan, values: Stream)
    requires plan == PlanFor(plan.words, plan.placement, plan.documents, plan.entities)
    ensures Matches(plan.slots, FactsOf(plan, values))
    ensures forall k :: k in plan.keys <==> k in plan.slots
    ensures Ascending(plan.keys)
  {
    var slots := SlotsOf(plan.words, plan.entities);
    FactsMatch(slots, Values(plan.words, values));
    SortedSetIs(Keys(slots));
  }

  lemma {:induction false} CollectedIds(pages: nat -> Document, count: nat)
    ensures forall id :: id in Collect(pages, count) <==> id in Ids(count)
  {
    if count > 0 {
      CollectedIds(pages, count - 1);
    }
  }

  lemma LowerCaseIsNoName(a: string)
    requires LowerCase(a)
    ensures !EntityName(a)
  {
  }

  lemma TermsDistinct(w: Words, entities: seq<string>)
    requires Sound(w) && Entities(entities)
    ensures Distinct(Terms(w, entities)) && Map(entities, Fold) == entities
    ensures forall t :: t in Terms(w, entities) <==> t in entities || t in w.attributes
    ensures forall t :: t in Terms(w, entities) ==> Searchable(w, t)
  {
    forall i | 0 <= i < |entities| ensures Fold(entities[i]) == entities[i] {
      assert entities[i] in entities;
      TermIsPlain(w, entities[i]);
    }
    forall i | 0 <= i < |w.attributes| ensures w.attributes[i] !in entities {
      LowerCaseIsNoName(w.attributes[i]);
    }
  }

  method Build(w: Words, hash: string -> nat, spec: Spec, valueSeed: string, ghost bound: nat)
      returns (r: Result<World, ArchiveError>)
    requires Sound(w) && Drawable(w, StreamsOf(hash, spec.seed, valueSeed).structure, spec, bound)
    ensures r == Built(w, StreamsOf(hash, spec.seed, valueSeed), spec, bound)
  {
    if spec.entities < 1 || spec.documents < 1 {
      return Failure(TooFewEntitiesOrDocuments);
    }
    var structure := new SeededRandom(hash, spec.seed + "\0" + "structure");
    var values := new SeededRandom(hash, valueSeed + "\0" + "values");
    var placement := new SeededRandom(hash, spec.seed + "\0" + "placement");
    var selection := new SeededRandom(hash, valueSeed + "\0" + "selection");
    r := BuildFrom(w, structure, values, placement, selection, spec, bound);
  }

  method BuildFrom(
      w: Words, structure: SeededRandom, values: SeededRandom, placement: SeededRandom, selection: SeededRandom,
      spec: Spec, ghost bound: nat)
      returns (r: Result<World, ArchiveError>)
    requires spec.entities >= 1 && spec.documents >= 1 && Sound(w)
    requires Drawable(w, structure.draws, spec, bound)
    requires structure.counter == values.counter == placement.counter == selection.counter == 0
    requires structure != values && values != placement && placement != selection
    requires structure != placement && structure != selection && values != selection
    modifies structure, values, placement, selection
    ensures r == Built(w, Streams(structure.draws, values.draws, placement.draws, selection.draws), spec, bound)
  {
    var entities := DrawEntities(w, structure, spec.entities, bound);
    DrawnAreEntities(w, structure.draws, spec.entities, bound);
    var slots := SlotsOf(w, entities);
    var facts := PlantFacts(w, values, slots);
    var keys := SortedSet(Keys(slots));
    if spec.graded > |keys| {
      return Failure(TooManyGraded);
    }
    var graded := DrawGraded(selection, keys, spec.graded);
    var plan := PlanFor(w, placement.draws, spec.documents, entities);
    PlanMatches(plan, values.draws);
    assert facts == FactsOf(plan, values.draws) && plan.entities == entities;
    var world := Furnish(w, placement, plan, facts, graded);
    return Success(world);
  }

  /** Placement of the facts, the documents and their order, and the index over them. */
  method Furnish(w: Words, placement: SeededRandom, plan: Plan, facts: map<string, Fact>, graded: seq<string>)
      returns (world: World)
    requires plan == PlanFor(w, placement.draws, plan.documents, plan.entities)
    requires plan.documents > 0 && placement.counter == 0
    requires Sound(w) && Entities(plan.entities) && Matches(plan.slots, facts)
    modifies placement
    ensures world == WorldOf(plan, facts, graded)
  {
    PlanMatches(plan, placement.draws);
    var buckets := Place(placement, plan.keys, plan.documents);
    var documents := WriteDocuments(placement, buckets, plan, facts);
    var ids := SortedSet(Ids(plan.documents));
    var order := placement.Shuffled(ids);
    TermsDistinct(w, plan.entities);
    SortedSetIs(Ids(plan.documents));
    CollectedIds(Pages(plan, facts), plan.documents);
    var terms := Terms(w, plan.entities);
    var index := BuildIndex(documents, ids, terms);
    IndexIsUnique(index, ids, documents, terms);
    world := World(documents, order, facts, graded, index);
  }
}
