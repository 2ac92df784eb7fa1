/**
 * src/enclave/environments/families/archive.py: what does not depend on the value seed, although
 * values sit inside lines that are sorted and shuffled, and what the search index finds.
 */
module ArchiveLaws {
  import opened Archive
  import opened ArchiveEnvironments
  import opened Prf
  import opened Sorting
  import opened Strings
  import opened Sums
  import opened Vocabulary
  import opened Wrappers

  // ----- The order of lines is decided before the value -----

  predicate GoodSlot(w: Words, slot: Slot) { slot.attribute in w.attributes && EntityName(slot.entity) }

  predicate Plain(w: Words, line: Line) {
    match line
    case Entry(token, slot) => ValueWord(token) && GoodSlot(w, slot)
    case Filler(text) => text != "" && text[0] != 'E'
  }

  predicate HeadLe(x: Line, y: Line) { LexLe(Head(x), Head(y)) }

  /** Three fields, each closed by a character it does not contain. */
  function Fields(p0: string, a: string, p1: string, b: string, p2: string, c: string, p3: string): string {
    p0 + a + p1 + b + p2 + c + p3
  }

  lemma ClosedFieldDiverges(before: string, a: string, a': string, stop: char, after: string, after': string)
    requires a != a' && stop !in a && stop !in a'
    ensures Diverge(before + a + ([stop] + after), before + a' + ([stop] + after'))
  {
    TerminatedDiverge(a, a', stop);
    DivergeExtends(a + [stop], after, a' + [stop], after');
    DivergeBehind(before, a + [stop] + after, a' + [stop] + after');
    assert before + a + ([stop] + after) == before + (a + [stop] + after);
    assert before + a' + ([stop] + after') == before + (a' + [stop] + after');
  }

  lemma FieldsDiverge(
      p0: string, a: string, a': string, p1: string, b: string, b': string,
      p2: string, c: string, c': string, p3: string)
    requires |p1| > 0 && |p2| > 0 && |p3| > 0
    requires p1[0] !in a && p1[0] !in a' && p2[0] !in b && p2[0] !in b' && p3[0] !in c && p3[0] !in c'
    requires a != a' || b != b' || c != c'
    ensures Diverge(Fields(p0, a, p1, b, p2, c, p3), Fields(p0, a', p1, b', p2, c', p3))
  {
    var whole, whole' := Fields(p0, a, p1, b, p2, c, p3), Fields(p0, a', p1, b', p2, c', p3);
    if a != a' {
      var rest, rest' := p1[1..] + b + p2 + c + p3, p1[1..] + b' + p2 + c' + p3;
      ClosedFieldDiverges(p0, a, a', p1[0], rest, rest');
      assert whole == p0 + a + ([p1[0]] + rest) && whole' == p0 + a' + ([p1[0]] + rest');
    } else if b != b' {
      var rest, rest' := p2[1..] + c + p3, p2[1..] + c' + p3;
      ClosedFieldDiverges(p0 + a + p1, b, b', p2[0], rest, rest');
      assert whole == p0 + a + p1 + b + ([p2[0]] + rest) && whole' == p0 + a + p1 + b' + ([p2[0]] + rest');
    } else {
      ClosedFieldDiverges(p0 + a + p1 + b + p2, c, c', p3[0], p3[1..], p3[1..]);
      assert whole == p0 + a + p1 + b + p2 + c + ([p3[0]] + p3[1..]);
      assert whole' == p0 + a + p1 + b + p2 + c' + ([p3[0]] + p3[1..]);
    }
  }

  lemma EntryIsFields(token: string, slot: Slot)
    ensures Head(Entry(token, slot))
      == Fields("Entry ", token, ": the ", slot.attribute, " of record ", slot.entity, " is recorded as")
    ensures Head(Entry(token, slot)) != "" && Head(Entry(token, slot))[0] == 'E'
  {
  }

  lemma FieldsLackStops(w: Words, token: string, slot: Slot)
    requires Sound(w) && ValueWord(token) && GoodSlot(w, slot)
    ensures ':' !in token && ' ' !in slot.attribute && ' ' !in slot.entity
  {
    assert LowerCase(slot.attribute);
  }

  lemma EntriesDiverge(w: Words, token: string, slot: Slot, token': string, slot': Slot)
    requires Sound(w) && Plain(w, Entry(token, slot)) && Plain(w, Entry(token', slot'))
    requires Entry(token, slot) != Entry(token', slot')
    ensures Diverge(Head(Entry(token, slot)), Head(Entry(token', slot')))
  {
    FieldsLackStops(w, token, slot);
    FieldsLackStops(w, token', slot');
    EntryIsFields(token, slot);
    EntryIsFields(token', slot');
    FieldsDiverge("Entry ", token, token', ": the ", slot.attribute, slot'.attribute,
                  " of record ", slot.entity, slot'.entity, " is recorded as");
  }

  /** What a line adds after its head. */
  function Tail(facts: map<string, Fact>, line: Line): string {
    if line.Filler? then "" else " " + ValueIn(facts, Key(line.slot)) + "."
  }

  lemma TextIsHeadAndTail(facts: map<string, Fact>, line: Line)
    ensures Text(facts)(line) == Head(line) + Tail(facts, line)
  {
  }

  lemma HeadsDivergeOrAgree(w: Words, x: Line, y: Line)
    requires Sound(w) && Plain(w, x) && Plain(w, y)
    ensures x == y || (x.Filler? && y.Filler?) || Diverge(Head(x), Head(y))
  {
    if x.Entry? && y.Entry? {
      if x != y {
        EntriesDiverge(w, x.token, x.slot, y.token, y.slot);
      }
    } else if x.Entry? {
      EntryIsFields(x.token, x.slot);
    } else if y.Entry? {
      EntryIsFields(y.token, y.slot);
    }
  }

  /** Whatever the values, two lines of a document compare as their heads do. */
  lemma HeadDecides(w: Words, facts: map<string, Fact>, x: Line, y: Line)
    requires Sound(w) && Plain(w, x) && Plain(w, y)
    ensures HeadLe(x, y) == LexLe(Text(facts)(x), Text(facts)(y))
  {
    HeadsDivergeOrAgree(w, x, y);
    TextIsHeadAndTail(facts, x);
    TextIsHeadAndTail(facts, y);
    if x == y {
      LexTotal(Head(x), Head(x));
      LexTotal(Text(facts)(x), Text(facts)(x));
    } else if x.Filler? && y.Filler? {
      assert Head(x) + Tail(facts, x) == Head(x) && Head(y) + Tail(facts, y) == Head(y);
    } else {
      DivergedOrder(Head(x), Tail(facts, x), Head(y), Tail(facts, y));
    }
  }

  // ----- Documents as laid out lines -----

  /** The lines of a document in their final order. No value enters it. */
  function LaidOut(s: Stream, counter: nat, lines: seq<Line>): seq<Line> {
    Drawn(s, counter, SortBy(lines, HeadLe), |lines|)
  }

  function Layout(plan: Plan, d: nat): seq<Line>
    requires plan.documents > 0
  {
    LaidOut(plan.placement, ShuffleStart(plan, d), LinesOf(plan, d))
  }

  function TitleOf(plan: Plan, d: nat): string
    requires plan.documents > 0
  {
    Title(plan.words, plan.placement, ShuffleStart(plan, d) + |LinesOf(plan, d)|)
  }

  function Rendered(title: string, layout: seq<Line>, text: Line -> string): Document {
    Document(title, Join(Map(layout, text), '\n'))
  }

  lemma PageIsLaidOut(w: Words, s: Stream, counter: nat, lines: seq<Line>, facts: map<string, Fact>)
    requires Sound(w) && forall l :: l in lines ==> Plain(w, l)
    ensures PageAt(w, s, counter, lines, Text(facts))
      == Rendered(Title(w, s, counter + |lines|), LaidOut(s, counter, lines), Text(facts))
  {
    forall x, y | x in lines && y in lines ensures HeadLe(x, y) == LexLe(Text(facts)(x), Text(facts)(y)) {
      HeadDecides(w, facts, x, y);
    }
    ShuffleFollowsOrder(s, counter, lines, Text(facts), HeadLe);
  }

  ghost predicate GoodSlots(w: Words, slots: map<string, Slot>) {
    forall k :: k in slots ==> GoodSlot(w, slots[k])
  }

  lemma {:induction false} EntriesArePlain(w: Words, s: Stream, c: nat, keys: seq<string>, slots: map<string, Slot>)
    requires Sound(w) && GoodSlots(w, slots) && forall k :: k in keys ==> k in slots
    ensures forall l :: l in Entries(w, s, c, keys, slots) ==> Plain(w, l)
  {
    if keys != [] {
      var n := |keys| - 1;
      EntriesArePlain(w, s, c, keys[..n], slots);
      TokenSafe(w, s, c + 2 * n, 2);
      assert Plain(w, Entry(Token(w, s, c + 2 * n, 2), SlotIn(slots, keys[n])));
    }
  }

  lemma {:induction false} FillersArePlain(w: Words, s: Stream, c: nat, count: nat)
    requires Sound(w)
    ensures forall l :: l in Fillers(w, s, c, count) ==> Plain(w, l)
  {
    if count > 0 {
      FillersArePlain(w, s, c, count - 1);
      assert Plain(w, Filler(w.filler[Index(s, c + count - 1, |w.filler|)]));
    }
  }

  lemma LinesArePlain(w: Words, s: Stream, c: nat, keys: seq<string>, slots: map<string, Slot>)
    requires Sound(w) && GoodSlots(w, slots) && forall k :: k in keys ==> k in slots
    ensures forall l :: l in Lines(w, s, c, keys, slots) ==> Plain(w, l)
  {
    EntriesArePlain(w, s, c, keys, slots);
    FillersArePlain(w, s, c + 2 * |keys|, w.fillerPerDocument);
  }

  /** A plan over sound words, its keys those of its slots. */
  ghost predicate GoodPlan(plan: Plan) {
    && plan.documents > 0
    && Sound(plan.words) && Entities(plan.entities) && GoodSlots(plan.words, plan.slots)
    && Ascending(plan.keys)
    && (forall k :: k in plan.keys <==> k in plan.slots)
    && (forall k :: k in plan.slots ==> Key(plan.slots[k]) == k && plan.slots[k].entity in plan.entities)
  }

  lemma LinesOfArePlain(plan: Plan, d: nat)
    requires GoodPlan(plan)
    ensures forall l :: l in LinesOf(plan, d) ==> Plain(plan.words, l)
  {
    BucketMembers(plan.placement, plan.keys, plan.documents, d);
    LinesArePlain(plan.words, plan.placement, Start(plan, d), BucketOf(plan, d), plan.slots);
  }

  lemma PageOfPlan(plan: Plan, d: nat, counter: nat, lines: seq<Line>, facts: map<string, Fact>)
    requires plan.documents > 0 && Sound(plan.words) && forall l :: l in lines ==> Plain(plan.words, l)
    requires counter == ShuffleStart(plan, d) && lines == LinesOf(plan, d)
    ensures PageAt(plan.words, plan.placement, counter, lines, Text(facts))
      == Rendered(TitleOf(plan, d), Layout(plan, d), Text(facts))
  {
    PageIsLaidOut(plan.words, plan.placement, counter, lines, facts);
    LayoutFrom(plan, d, counter, lines);
  }

  lemma LayoutFrom(plan: Plan, d: nat, counter: nat, lines: seq<Line>)
    requires plan.documents > 0 && counter == ShuffleStart(plan, d) && lines == LinesOf(plan, d)
    ensures TitleOf(plan, d) == Title(plan.words, plan.placement, counter + |lines|)
    ensures Layout(plan, d) == LaidOut(plan.placement, counter, lines)
  {
  }

  /** Document `d` is its layout with the values filled in, for any facts. */
  lemma DocumentIsLaidOut(plan: Plan, facts: map<string, Fact>, d: nat)
    requires GoodPlan(plan)
    ensures DocumentOf(plan, facts, d) == Rendered(TitleOf(plan, d), Layout(plan, d), Text(facts))
  {
    LinesOfArePlain(plan, d);
    PageOfPlan(plan, d, ShuffleStart(plan, d), LinesOf(plan, d), facts);
  }

  lemma LaidOutKeepsLines(s: Stream, counter: nat, lines: seq<Line>)
    ensures multiset(LaidOut(s, counter, lines)) == multiset(lines)
    ensures forall l :: l in LaidOut(s, counter, lines) <==> l in lines
  {
    var out := LaidOut(s, counter, lines);
    WholePool(s, counter, SortBy(lines, HeadLe));
    forall l ensures l in out <==> l in lines {
      assert l in out <==> l in multiset(out);
    }
  }

  // ----- What a document mentions does not depend on its values -----

  /** The facts of a plan, with values of the kind that is drawn. */
  ghost predicate GoodFacts(plan: Plan, facts: map<string, Fact>) {
    Matches(plan.slots, facts) && forall k :: k in facts ==> ValueWord(facts[k].value)
  }

  ghost predicate Mentions(title: string, layout: seq<Line>, term: string) {
    Contains(Fold(title), term) || exists l :: l in layout && Contains(Fold(Head(l)), term)
  }

  lemma ValueInIsWord(plan: Plan, facts: map<string, Fact>, key: string)
    requires GoodFacts(plan, facts)
    ensures ValueWord(ValueIn(facts, key))
  {
  }

  lemma NothingInNothing(term: string)
    requires term != ""
    ensures !Contains("", term)
  {
  }

  /** A line contains a searchable term exactly when its head does. */
  lemma LineMentions(plan: Plan, facts: map<string, Fact>, line: Line, term: string)
    requires GoodPlan(plan) && GoodFacts(plan, facts) && Searchable(plan.words, term)
    ensures Contains(Fold(Text(facts)(line)), term) <==> Contains(Fold(Head(line)), term)
  {
    TextIsHeadAndTail(facts, line);
    if line.Entry? {
      var value := ValueIn(facts, Key(line.slot));
      ValueInIsWord(plan, facts, Key(line.slot));
      TermIsPlain(plan.words, term);
      EntryMentions(plan.words, Head(line), value, term);
    } else {
      assert Text(facts)(line) == Head(line);
    }
  }

  lemma EntryMentions(w: Words, head: string, value: string, term: string)
    requires Sound(w) && ValueWord(value) && Searchable(w, term)
    ensures Contains(Fold(head + (" " + value + ".")), term) <==> Contains(Fold(head), term)
  {
    TermIsPlain(w, term);
    ValueFolds(value);
    FoldConcat(head, " " + value + ".");
    FoldConcat(" " + value, ".");
    FoldConcat(" ", value);
    var ending := value + ['.'] + "";
    assert Fold(head + (" " + value + ".")) == Fold(head) + [' '] + ending;
    ContainsSplit(Fold(head), ' ', ending, term);
    ContainsSplit(value, '.', "", term);
    NoTermInValue(w, value, term);
    NothingInNothing(term);
  }

  lemma HaystackMentions(plan: Plan, facts: map<string, Fact>, title: string, layout: seq<Line>, term: string)
    requires GoodPlan(plan) && GoodFacts(plan, facts) && Searchable(plan.words, term)
    ensures Contains(Haystack(Rendered(title, layout, Text(facts))), term) <==> Mentions(title, layout, term)
  {
    var texts := Map(layout, Text(facts));
    var folded := Map(texts, Fold);
    TermIsPlain(plan.words, term);
    FoldJoin(texts, '\n');
    FoldConcat(title + "\n", Join(texts, '\n'));
    FoldConcat(title, "\n");
    ContainsSplit(Fold(title), '\n', Join(folded, '\n'), term);
    ContainsJoin(folded, '\n', term);
    assert Haystack(Rendered(title, layout, Text(facts))) == Fold(title) + ['\n'] + Join(folded, '\n');
    LinesMention(plan, facts, layout, term);
  }

  lemma LinesMention(plan: Plan, facts: map<string, Fact>, layout: seq<Line>, term: string)
    requires GoodPlan(plan) && GoodFacts(plan, facts) && Searchable(plan.words, term)
    ensures (exists p :: p in Map(Map(layout, Text(facts)), Fold) && Contains(p, term))
      <==> exists l :: l in layout && Contains(Fold(Head(l)), term)
  {
    var folded := Map(Map(layout, Text(facts)), Fold);
    if p :| p in folded && Contains(p, term) {
      var i :| 0 <= i < |folded| && folded[i] == p;
      LineMentions(plan, facts, layout[i], term);
      assert layout[i] in layout;
    }
    if l :| l in layout && Contains(Fold(Head(l)), term) {
      var i :| 0 <= i < |layout| && layout[i] == l;
      LineMentions(plan, facts, l, term);
      assert folded[i] in folded;
    }
  }

  // ----- Documents by identifier -----

  lemma PaddingIsSilent(d: nat)
    ensures ValueOf(DocId(d)[4..]) == d
  {
    DecimalValue(d);
    LeadingZero(Decimal(d));
    LeadingZero("0" + Decimal(d));
    assert "00" + Decimal(d) == "0" + ("0" + Decimal(d));
    assert DocId(d)[4..] == (if d < 10 then "00" else if d < 100 then "0" else "") + Decimal(d);
  }

  lemma DocIdInjective(d: nat, e: nat)
    requires DocId(d) == DocId(e)
    ensures d == e
  {
    PaddingIsSilent(d);
    PaddingIsSilent(e);
  }

  lemma {:induction false} CollectedAt(pages: nat -> Document, count: nat, d: nat)
    requires d < count
    ensures DocId(d) in Collect(pages, count) && Collect(pages, count)[DocId(d)] == pages(d)
  {
    if d < count - 1 {
      CollectedAt(pages, count - 1, d);
      if DocId(d) == DocId(count - 1) {
        DocIdInjective(d, count - 1);
      }
    }
  }

  lemma {:induction false} IdHasPosition(count: nat, id: string) returns (d: nat)
    requires id in Ids(count)
    ensures d < count && id == DocId(d)
  {
    if id == DocId(count - 1) {
      d := count - 1;
    } else {
      d := IdHasPosition(count - 1, id);
    }
  }

  // ----- The index -----

  lemma {:induction false} ScanAgrees(
      ids: seq<string>, a: map<string, Document>, b: map<string, Document>, term: string)
    requires forall id :: id in ids ==> Found(a, id, term) == Found(b, id, term)
    ensures Scan(ids, a, term) == Scan(ids, b, term)
  {
    if ids != [] {
      ScanAgrees(ids[..|ids| - 1], a, b, term);
    }
  }

  lemma {:induction false} ScanFinds(ids: seq<string>, documents: map<string, Document>, term: string, id: string)
    ensures id in Scan(ids, documents, term) <==> id in ids && Found(documents, id, term)
  {
    if ids != [] {
      var n := |ids| - 1;
      ScanFinds(ids[..n], documents, term, id);
      assert ids == ids[..n] + [ids[n]];
    }
  }

  lemma {:induction false} ScanAscends(ids: seq<string>, documents: map<string, Document>, term: string)
    requires Ascending(ids)
    ensures Ascending(Scan(ids, documents, term))
  {
    if ids != [] {
      var n := |ids| - 1;
      ScanAscends(ids[..n], documents, term);
      var before := Scan(ids[..n], documents, term);
      forall i | 0 <= i < |before| ensures LexLe(before[i], ids[n]) && before[i] != ids[n] {
        ScanFinds(ids[..n], documents, term, before[i]);
        var j :| 0 <= j < n && ids[..n][j] == before[i];
        assert ids[j] == before[i];
      }
    }
  }

  /**
   * The prebuilt index agrees with a naive scan: for every entity and attribute it lists, ascending
   * and without repeats, exactly the documents whose folded text contains the term.
   */
  lemma IndexAgreesWithScan(plan: Plan, facts: map<string, Fact>, graded: seq<string>, term: string)
    requires GoodPlan(plan) && (term in plan.entities || term in plan.words.attributes)
    ensures var world := WorldOf(plan, facts, graded);
      && Ascending(Listed(world.index, term))
      && forall id :: id in Listed(world.index, term)
           <==> id in world.documents && Contains(Haystack(world.documents[id]), term)
  {
    var ids := SortedSet(Ids(plan.documents));
    var documents := Collect(Pages(plan, facts), plan.documents);
    TermsDistinct(plan.words, plan.entities);
    SortedSetIs(Ids(plan.documents));
    CollectedIds(Pages(plan, facts), plan.documents);
    ScanAscends(ids, documents, term);
    forall id ensures id in Scan(ids, documents, term) <==> id in documents && Found(documents, id, term) {
      ScanFinds(ids, documents, term, id);
    }
    assert Listed(WorldOf(plan, facts, graded).index, term) == Scan(ids, documents, term);
  }

  // ----- Two runs of the generator -----

  lemma FoundIsMention(plan: Plan, facts: map<string, Fact>, d: nat, term: string)
    requires GoodPlan(plan) && GoodFacts(plan, facts) && Searchable(plan.words, term) && d < plan.documents
    ensures Found(Collect(Pages(plan, facts), plan.documents), DocId(d), term)
      <==> Mentions(TitleOf(plan, d), Layout(plan, d), term)
  {
    CollectedAt(Pages(plan, facts), plan.documents, d);
    DocumentIsLaidOut(plan, facts, d);
    HaystackMentions(plan, facts, TitleOf(plan, d), Layout(plan, d), term);
  }

  lemma ScansAgree(plan: Plan, a: map<string, Fact>, b: map<string, Fact>, term: string)
    requires GoodPlan(plan) && GoodFacts(plan, a) && GoodFacts(plan, b) && Searchable(plan.words, term)
    ensures var ids := SortedSet(Ids(plan.documents));
      Scan(ids, Collect(Pages(plan, a), plan.documents), term)
        == Scan(ids, Collect(Pages(plan, b), plan.documents), term)
  {
    var ids := SortedSet(Ids(plan.documents));
    var da, db := Collect(Pages(plan, a), plan.documents), Collect(Pages(plan, b), plan.documents);
    SortedSetIs(Ids(plan.documents));
    forall id | id in ids ensures Found(da, id, term) == Found(db, id, term) {
      var d := IdHasPosition(plan.documents, id);
      FoundIsMention(plan, a, d, term);
      FoundIsMention(plan, b, d, term);
    }
    ScanAgrees(ids, da, db, term);
  }

  lemma IndexesAgree(plan: Plan, a: map<string, Fact>, b: map<string, Fact>)
    requires GoodPlan(plan) && GoodFacts(plan, a) && GoodFacts(plan, b)
    ensures var ids, terms := SortedSet(Ids(plan.documents)), Terms(plan.words, plan.entities);
      IndexOf(ids, Collect(Pages(plan, a), plan.documents), terms)
        == IndexOf(ids, Collect(Pages(plan, b), plan.documents), terms)
  {
    TermsDistinct(plan.words, plan.entities);
    var ids, terms := SortedSet(Ids(plan.documents)), Terms(plan.words, plan.entities);
    var da, db := Collect(Pages(plan, a), plan.documents), Collect(Pages(plan, b), plan.documents);
    forall t | t in terms ensures Scan(ids, da, t) == Scan(ids, db, t) {
      ScansAgree(plan, a, b, t);
    }
    IndexFromScans(ids, da, db, terms);
  }

  lemma IndexFromScans(ids: seq<string>, a: map<string, Document>, b: map<string, Document>, terms: seq<string>)
    requires forall t :: t in terms ==> Scan(ids, a, t) == Scan(ids, b, t)
    ensures IndexOf(ids, a, terms) == IndexOf(ids, b, terms)
  {
  }

  /** Each document is the layout of its position with the values filled in. */
  ghost predicate LaysOut(plan: Plan, documents: map<string, Document>, facts: map<string, Fact>)
    requires plan.documents > 0
  {
    forall d :: 0 <= d < plan.documents ==>
      && DocId(d) in documents
      && documents[DocId(d)] == Rendered(TitleOf(plan, d), Layout(plan, d), Text(facts))
  }

  /** Two worlds that differ in nothing but the values in fixed places and the choice of graded keys. */
  ghost predicate SameButValues(plan: Plan, a: World, b: World)
    requires plan.documents > 0
  {
    && a.order == b.order && a.index == b.index
    && a.documents.Keys == b.documents.Keys
    && a.facts.Keys == b.facts.Keys
    && (forall k :: k in a.facts ==> a.facts[k].slot == b.facts[k].slot)
    && (forall k :: k in a.graded || k in b.graded ==> k in a.facts)
    && |a.graded| == |b.graded|
    && LaysOut(plan, a.documents, a.facts) && LaysOut(plan, b.documents, b.facts)
  }

  lemma GradedAreKeys(s: Stream, keys: seq<string>, count: int)
    requires count <= |keys| && Distinct(keys)
    ensures |Graded(s, keys, count)| == if count < 0 then 0 else count
    ensures forall k :: k in Graded(s, keys, count) ==> k in keys
  {
    if count >= 0 {
      var sample := SampleOf(s, 0, keys, count);
      SampleIsSubset(s, 0, keys, count);
      forall k | k in SortBy(sample, LexLe) ensures k in keys {
        assert k in multiset(SortBy(sample, LexLe));
      }
    }
  }

  lemma {:induction false} SlotsAreGood(w: Words, entities: seq<string>)
    requires forall e :: e in entities ==> EntityName(e)
    ensures forall slot :: slot in SlotsOf(w, entities) ==> GoodSlot(w, slot) && slot.entity in entities
  {
    if entities != [] {
      var n := |entities| - 1;
      SlotsAreGood(w, entities[..n]);
      assert entities[n] in entities;
      forall slot | slot in SlotsFor(w, entities[n]) ensures GoodSlot(w, slot) && slot.entity == entities[n] {
      }
    }
  }

  lemma {:induction false} SlotMapFrom(slots: seq<Slot>)
    ensures forall k :: k in SlotMap(slots) ==> SlotMap(slots)[k] in slots
  {
    if slots != [] {
      SlotMapFrom(slots[..|slots| - 1]);
    }
  }

  lemma {:induction false} FactValues(slots: seq<Slot>, value: nat -> string)
    requires forall n :: ValueWord(value(n))
    ensures forall k :: k in Facts(slots, value) ==> ValueWord(Facts(slots, value)[k].value)
  {
    if slots != [] {
      FactValues(slots[..|slots| - 1], value);
    }
  }

  /** The plan of a generated world is as the lemmas above require. */
  lemma PlanIsGood(w: Words, placement: Stream, documents: nat, entities: seq<string>)
    requires Sound(w) && Entities(entities) && documents > 0
    ensures GoodPlan(PlanFor(w, placement, documents, entities))
  {
    var plan := PlanFor(w, placement, documents, entities);
    PlanMatches(plan, placement);
    SlotsAreGood(w, entities);
    SlotMapFrom(SlotsOf(w, entities));
    assert Matches(plan.slots, FactsOf(plan, placement));
    forall k | k in plan.slots
      ensures GoodSlot(w, plan.slots[k]) && Key(plan.slots[k]) == k && plan.slots[k].entity in entities
    {
    }
  }

  /** And so are the facts drawn for it. */
  lemma FactsAreGood(plan: Plan, values: Stream)
    requires plan == PlanFor(plan.words, plan.placement, plan.documents, plan.entities) && Sound(plan.words)
    ensures GoodFacts(plan, FactsOf(plan, values))
  {
    PlanMatches(plan, values);
    var value := Values(plan.words, values);
    forall n: nat ensures ValueWord(value(n)) {
      TokenSafe(plan.words, values, 3 * n, 3);
    }
    FactValues(SlotsOf(plan.words, plan.entities), value);
  }

  lemma WorldsAgree(plan: Plan, a: map<string, Fact>, ga: seq<string>, b: map<string, Fact>, gb: seq<string>)
    requires GoodPlan(plan) && GoodFacts(plan, a) && GoodFacts(plan, b)
    requires |ga| == |gb| && forall k :: k in ga || k in gb ==> k in plan.keys
    ensures SameButValues(plan, WorldOf(plan, a, ga), WorldOf(plan, b, gb))
  {
    IndexesAgree(plan, a, b);
    SameIds(Pages(plan, a), Pages(plan, b), plan.documents);
    AllLaidOut(plan, a);
    AllLaidOut(plan, b);
  }

  lemma SameIds(a: nat -> Document, b: nat -> Document, count: nat)
    ensures Collect(a, count).Keys == Collect(b, count).Keys
  {
    CollectedIds(a, count);
    CollectedIds(b, count);
  }

  lemma AllLaidOut(plan: Plan, facts: map<string, Fact>)
    requires GoodPlan(plan)
    ensures LaysOut(plan, Collect(Pages(plan, facts), plan.documents), facts)
  {
    forall d | 0 <= d < plan.documents
      ensures var documents := Collect(Pages(plan, facts), plan.documents);
        && DocId(d) in documents
        && documents[DocId(d)] == Rendered(TitleOf(plan, d), Layout(plan, d), Text(facts))
    {
      CollectedAt(Pages(plan, facts), plan.documents, d);
      DocumentIsLaidOut(plan, facts, d);
    }
  }

  /**
   * Audit non-interference. For one spec and any two value seeds, both worlds are refused alike, or
   * both have the same entities, titles, document order, line positions and search index, and
   * differ only in the values in their slots and in which keys are graded.
   */
  lemma AuditChangesOnlyValues(
      w: Words, hash: string -> nat, spec: Spec, seedA: string, seedB: string, bound: nat)
    requires Sound(w) && Drawable(w, StreamsOf(hash, spec.seed, seedA).structure, spec, bound)
    ensures var a, b := Built(w, StreamsOf(hash, spec.seed, seedA), spec, bound),
                        Built(w, StreamsOf(hash, spec.seed, seedB), spec, bound);
      && (a.Failure? ==> b == a)
      && (a.Success? ==>
            && b.Success? && spec.entities >= 1 && spec.documents >= 1
            && var s := StreamsOf(hash, spec.seed, seedA);
               SameButValues(PlanFor(w, s.placement, spec.documents, EntitiesOf(w, s.structure, spec, bound)),
                             a.value, b.value))
  {
    BuiltAgree(w, StreamsOf(hash, spec.seed, seedA), StreamsOf(hash, spec.seed, seedB), spec, bound);
  }

  lemma BuiltAgree(w: Words, s: Streams, t: Streams, spec: Spec, bound: nat)
    requires s.structure == t.structure && s.placement == t.placement
    requires Sound(w) && Drawable(w, s.structure, spec, bound)
    ensures var a, b := Built(w, s, spec, bound), Built(w, t, spec, bound);
      && (a.Failure? ==> b == a)
      && (a.Success? ==>
            && b.Success? && spec.entities >= 1 && spec.documents >= 1
            && SameButValues(PlanFor(w, s.placement, spec.documents, EntitiesOf(w, s.structure, spec, bound)),
                             a.value, b.value))
  {
    if spec.entities >= 1 && spec.documents >= 1 {
      var entities := EntitiesOf(w, s.structure, spec, bound);
      var plan := PlanFor(w, s.placement, spec.documents, entities);
      DrawnAreEntities(w, s.structure, spec.entities, bound);
      PlanIsGood(w, s.placement, spec.documents, entities);
      FactsAreGood(plan, s.values);
      FactsAreGood(plan, t.values);
      if spec.graded <= |plan.keys| {
        GradedAreKeys(s.selection, plan.keys, spec.graded);
        GradedAreKeys(t.selection, plan.keys, spec.graded);
        WorldsAgree(plan, FactsOf(plan, s.values), Graded(s.selection, plan.keys, spec.graded),
                    FactsOf(plan, t.values), Graded(t.selection, plan.keys, spec.graded));
      }
    }
  }

  /** Whatever is built is a good plan with good facts, and only its own facts are graded. */
  lemma BuiltIsGood(w: Words, s: Streams, spec: Spec, bound: nat)
      returns (plan: Plan, facts: map<string, Fact>, graded: seq<string>)
    requires Sound(w) && Drawable(w, s.structure, spec, bound) && Built(w, s, spec, bound).Success?
    ensures GoodPlan(plan) && GoodFacts(plan, facts)
    ensures Built(w, s, spec, bound).value == WorldOf(plan, facts, graded)
    ensures forall k :: k in graded ==> k in facts
  {
    var entities := EntitiesOf(w, s.structure, spec, bound);
    plan := PlanFor(w, s.placement, spec.documents, entities);
    facts := FactsOf(plan, s.values);
    graded := Graded(s.selection, plan.keys, spec.graded);
    DrawnAreEntities(w, s.structure, spec.entities, bound);
    PlanIsGood(w, s.placement, spec.documents, entities);
    FactsAreGood(plan, s.values);
    GradedAreKeys(s.selection, plan.keys, spec.graded);
  }

  // ----- Where a fact is, and how it is found -----

  predicate IsAbout(line: Line, key: string) { line.Entry? && Key(line.slot) == key }

  function About(key: string): Line -> bool { (line: Line) => IsAbout(line, key) }

  /** A key is in the bucket its draw sends it to, once, and in no other. */
  lemma {:induction false} OneBucket(s: Stream, keys: seq<string>, documents: nat, key: string) returns (home: nat)
    requires documents > 0 && Distinct(keys) && key in keys
    ensures home < documents
    ensures forall n :: 0 <= n < |keys| && keys[n] == key ==> home == Index(s, n, documents)
    ensures forall d :: multiset(Bucket(s, keys, documents, d))[key] == if d == home then 1 else 0
  {
    var n := |keys| - 1;
    var before := keys[..n];
    assert keys == before + [keys[n]];
    if key == keys[n] {
      home := Index(s, n, documents);
      forall d ensures multiset(Bucket(s, keys, documents, d))[key] == if d == home then 1 else 0 {
        BucketMembers(s, before, documents, d);
        NotIn(Bucket(s, before, documents, d), key);
      }
    } else {
      home := OneBucket(s, before, documents, key);
      forall d ensures multiset(Bucket(s, keys, documents, d))[key] == if d == home then 1 else 0 {
        assert multiset(Bucket(s, before, documents, d))[key] == if d == home then 1 else 0;
      }
    }
  }

  lemma NotIn(s: seq<string>, x: string)
    requires x !in s
    ensures multiset(s)[x] == 0
  {
    assert x !in multiset(s);
  }

  /** The slots are filed under their own keys. */
  ghost predicate Filed(slots: map<string, Slot>, keys: seq<string>) {
    forall k :: k in keys ==> k in slots && Key(slots[k]) == k
  }

  lemma {:induction false} EntriesAbout(
      w: Words, s: Stream, c: nat, keys: seq<string>, slots: map<string, Slot>, key: string)
    requires Filed(slots, keys)
    ensures CountBy(Entries(w, s, c, keys, slots), About(key)) == multiset(keys)[key]
  {
    if keys != [] {
      var n := |keys| - 1;
      var line := Entry(Token(w, s, c + 2 * n, 2), slots[keys[n]]);
      EntriesAbout(w, s, c, keys[..n], slots, key);
      OccursOneMore(keys, key);
      CountOneMore(Entries(w, s, c, keys[..n], slots), line, key);
      assert Entries(w, s, c, keys, slots) == Entries(w, s, c, keys[..n], slots) + [line];
    }
  }

  lemma OccursOneMore(keys: seq<string>, key: string)
    requires keys != []
    ensures multiset(keys)[key] == multiset(keys[..|keys| - 1])[key] + if keys[|keys| - 1] == key then 1 else 0
  {
    assert keys == keys[..|keys| - 1] + [keys[|keys| - 1]];
  }

  lemma CountOneMore(lines: seq<Line>, line: Line, key: string)
    ensures CountBy(lines + [line], About(key)) == CountBy(lines, About(key)) + if IsAbout(line, key) then 1 else 0
  {
    assert (lines + [line])[..|lines|] == lines;
  }

  lemma {:induction false} EntriesUseSlots(w: Words, s: Stream, c: nat, keys: seq<string>, slots: map<string, Slot>)
    requires Filed(slots, keys)
    ensures forall l :: l in Entries(w, s, c, keys, slots) ==>
      l.Entry? && Key(l.slot) in slots && l.slot == slots[Key(l.slot)]
  {
    if keys != [] {
      EntriesUseSlots(w, s, c, keys[..|keys| - 1], slots);
    }
  }

  lemma {:induction false} FillersAbout(w: Words, s: Stream, c: nat, count: nat, key: string)
    ensures CountBy(Fillers(w, s, c, count), About(key)) == 0
  {
    if count > 0 {
      var line := Filler(w.filler[Index(s, c + count - 1, |w.filler|)]);
      FillersAbout(w, s, c, count - 1, key);
      CountOneMore(Fillers(w, s, c, count - 1), line, key);
    }
  }

  lemma {:induction false} FillersAreFillers(w: Words, s: Stream, c: nat, count: nat)
    ensures forall l :: l in Fillers(w, s, c, count) ==> l.Filler?
  {
    if count > 0 {
      FillersAreFillers(w, s, c, count - 1);
    }
  }

  lemma LinesCount(w: Words, s: Stream, c: nat, keys: seq<string>, slots: map<string, Slot>, key: string)
    requires Filed(slots, keys)
    ensures CountBy(Lines(w, s, c, keys, slots), About(key)) == multiset(keys)[key]
  {
    EntriesAbout(w, s, c, keys, slots, key);
    FillersAbout(w, s, c + 2 * |keys|, w.fillerPerDocument, key);
    OnlyFirst(Entries(w, s, c, keys, slots), Fillers(w, s, c + 2 * |keys|, w.fillerPerDocument), key);
  }

  lemma OnlyFirst(entries: seq<Line>, fillers: seq<Line>, key: string)
    requires CountBy(fillers, About(key)) == 0
    ensures CountBy(entries + fillers, About(key)) == CountBy(entries, About(key))
  {
    CountByAppend(entries, fillers, About(key));
  }

  lemma LinesUseSlots(w: Words, s: Stream, c: nat, keys: seq<string>, slots: map<string, Slot>, key: string)
    requires Filed(slots, keys)
    ensures forall l :: l in Lines(w, s, c, keys, slots) && IsAbout(l, key) ==> key in slots && l.slot == slots[key]
  {
    EntriesUseSlots(w, s, c, keys, slots);
    FillersAreFillers(w, s, c + 2 * |keys|, w.fillerPerDocument);
  }

  lemma LayoutAbout(plan: Plan, d: nat, key: string)
    requires GoodPlan(plan)
    ensures CountBy(Layout(plan, d), About(key)) == multiset(BucketOf(plan, d))[key]
    ensures forall l :: l in Layout(plan, d) && IsAbout(l, key) ==> key in plan.slots && l.slot == plan.slots[key]
  {
    BucketMembers(plan.placement, plan.keys, plan.documents, d);
    LinesCount(plan.words, plan.placement, Start(plan, d), BucketOf(plan, d), plan.slots, key);
    LinesUseSlots(plan.words, plan.placement, Start(plan, d), BucketOf(plan, d), plan.slots, key);
    LaidOutKeepsLines(plan.placement, ShuffleStart(plan, d), LinesOf(plan, d));
    CountByPermutation(Layout(plan, d), LinesOf(plan, d), About(key));
  }

  lemma {:induction false} CountedIsThere(lines: seq<Line>, key: string) returns (line: Line)
    requires CountBy(lines, About(key)) > 0
    ensures line in lines && IsAbout(line, key)
  {
    var n := |lines| - 1;
    if IsAbout(lines[n], key) {
      line := lines[n];
    } else {
      line := CountedIsThere(lines[..n], key);
    }
  }

  lemma FoldedPart(before: string, part: string, after: string)
    requires Fold(part) == part
    ensures Contains(Fold(before + part + after), part)
  {
    FoldConcat(before + part, after);
    FoldConcat(before, part);
    assert OccursAt(part, part, 0);
    ContainsBehind(Fold(before), part, part);
    ContainsAhead(Fold(before) + part, Fold(after), part);
  }

  lemma FieldsMention(p0: string, a: string, p1: string, b: string, p2: string, c: string, p3: string)
    requires Fold(b) == b && Fold(c) == c
    ensures Contains(Fold(Fields(p0, a, p1, b, p2, c, p3)), b)
    ensures Contains(Fold(Fields(p0, a, p1, b, p2, c, p3)), c)
  {
    FoldedPart(p0 + a + p1, b, p2 + c + p3);
    FoldedPart(p0 + a + p1 + b + p2, c, p3);
    assert Fields(p0, a, p1, b, p2, c, p3) == p0 + a + p1 + b + (p2 + c + p3);
  }

  lemma HeadMentions(w: Words, token: string, slot: Slot)
    requires Sound(w) && GoodSlot(w, slot)
    ensures Contains(Fold(Head(Entry(token, slot))), slot.entity)
    ensures Contains(Fold(Head(Entry(token, slot))), slot.attribute)
  {
    TermIsPlain(w, slot.entity);
    TermIsPlain(w, slot.attribute);
    EntryIsFields(token, slot);
    FieldsMention("Entry ", token, ": the ", slot.attribute, " of record ", slot.entity, " is recorded as");
  }

  /**
   * Every planted fact is stated by exactly one line of exactly one document, and searching for its
   * entity or for its attribute lists that document.
   */
  lemma FactIsFindable(plan: Plan, facts: map<string, Fact>, graded: seq<string>, key: string) returns (home: nat)
    requires GoodPlan(plan) && GoodFacts(plan, facts) && key in facts
    ensures home < plan.documents
    ensures forall n :: 0 <= n < |plan.keys| && plan.keys[n] == key ==>
      home == Index(plan.placement, n, plan.documents)
    ensures forall d :: 0 <= d < plan.documents ==>
      CountBy(Layout(plan, d), About(key)) == if d == home then 1 else 0
    ensures var index := WorldOf(plan, facts, graded).index;
      && DocId(home) in Listed(index, facts[key].slot.entity)
      && DocId(home) in Listed(index, facts[key].slot.attribute)
  {
    home := OneBucket(plan.placement, plan.keys, plan.documents, key);
    forall d | 0 <= d < plan.documents
      ensures CountBy(Layout(plan, d), About(key)) == if d == home then 1 else 0
    {
      LayoutAbout(plan, d, key);
      assert multiset(Bucket(plan.placement, plan.keys, plan.documents, d))[key] == if d == home then 1 else 0;
    }
    var line := CountedIsThere(Layout(plan, home), key);
    LayoutAbout(plan, home, key);
    HeadMentions(plan.words, line.token, line.slot);
    var slot := facts[key].slot;
    FoundIsMention(plan, facts, home, slot.entity);
    FoundIsMention(plan, facts, home, slot.attribute);
    IndexAgreesWithScan(plan, facts, graded, slot.entity);
    IndexAgreesWithScan(plan, facts, graded, slot.attribute);
  }

  /** What a document that states a fact says. */
  function Statement(fact: Fact): string {
    "the " + fact.slot.attribute + " of record " + fact.slot.entity + " is recorded as " + fact.value + "."
  }

  lemma Regroup(
      p: string, t: string, q: string, r: string, a: string, m: string, e: string, n: string,
      gap: string, v: string, stop: string)
    ensures Fields(p, t, q + r, a, m, e, n) + (gap + v + stop)
      == (p + t + q) + (r + a + m + e + (n + gap) + v + stop)
  {
  }

  lemma EntryStates(facts: map<string, Fact>, token: string, key: string)
    requires key in facts && Key(facts[key].slot) == key
    ensures Contains(Text(facts)(Entry(token, facts[key].slot)), Statement(facts[key]))
  {
    var line, slot, value := Entry(token, facts[key].slot), facts[key].slot, facts[key].value;
    EntryIsFields(token, slot);
    TextIsHeadAndTail(facts, line);
    Regroup("Entry ", token, ": ", "the ", slot.attribute, " of record ", slot.entity,
            " is recorded as", " ", value, ".");
    assert ": " + "the " == ": the " && " is recorded as" + " " == " is recorded as ";
    ContainsItself(Statement(facts[key]));
    ContainsBehind("Entry " + token + ": ", Statement(facts[key]), Statement(facts[key]));
  }

  lemma LaidOutStates(title: string, layout: seq<Line>, facts: map<string, Fact>, line: Line, statement: string)
    requires line in layout && Contains(Text(facts)(line), statement)
    ensures Contains(Rendered(title, layout, Text(facts)).body, statement)
  {
    var texts := Map(layout, Text(facts));
    var i :| 0 <= i < |layout| && layout[i] == line;
    assert texts[i] in texts;
    JoinContainsPart(texts, '\n', texts[i]);
    ContainsTransitive(Join(texts, '\n'), texts[i], statement);
  }

  /** Every graded world can be solved by reading: each fact's value stands in the document found for it. */
  lemma ReadingRecovers(plan: Plan, facts: map<string, Fact>, graded: seq<string>, key: string) returns (id: string)
    requires GoodPlan(plan) && GoodFacts(plan, facts) && key in facts
    ensures var world := WorldOf(plan, facts, graded);
      && id in Listed(world.index, facts[key].slot.entity)
      && id in world.documents && Contains(world.documents[id].body, Statement(facts[key]))
  {
    var home := FactIsFindable(plan, facts, graded, key);
    id := DocId(home);
    HomeStates(plan, facts, key, home);
    CollectedAt(Pages(plan, facts), plan.documents, home);
  }

  lemma HomeStates(plan: Plan, facts: map<string, Fact>, key: string, home: nat)
    requires GoodPlan(plan) && GoodFacts(plan, facts) && key in facts && home < plan.documents
    requires CountBy(Layout(plan, home), About(key)) == 1
    ensures Contains(DocumentOf(plan, facts, home).body, Statement(facts[key]))
  {
    var layout := Layout(plan, home);
    var line := CountedIsThere(layout, key);
    LayoutAbout(plan, home, key);
    EntryStates(facts, line.token, key);
    LaidOutStates(TitleOf(plan, home), layout, facts, line, Statement(facts[key]));
    DocumentIsLaidOut(plan, facts, home);
  }

  // ----- Answers carried from one world to the other -----

  /** Every value of a world, by key: the complete answer to it. */
  function AllValues(world: World): map<string, Option<string>> {
    map k | k in world.facts :: Some(world.facts[k].value)
  }

  /**
   * The complete answer to one world solves the other exactly when no graded value of the other
   * changed; in particular it solves its own world.
   */
  lemma CarriedAnswer(plan: Plan, a: World, b: World, normalise: string -> string)
    requires plan.documents > 0 && SameButValues(plan, a, b)
    ensures Marked(b, Members(AllValues(a)), normalise).solved
      <==> forall k :: k in b.graded ==> normalise(a.facts[k].value) == normalise(b.facts[k].value)
    ensures Marked(a, Members(AllValues(a)), normalise).solved
  {
    SolvesExactly(b, AllValues(a), normalise);
    SolvesExactly(a, AllValues(a), normalise);
  }
}
