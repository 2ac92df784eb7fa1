/** src/enclave/environments/families/archive.py: the words an archive is written with. */
module Vocabulary {
  import opened Prf
  import opened Strings

  datatype WordLists = WordLists(
    nouns: seq<string>, attributes: seq<string>, syllables: seq<string>,
    filler: seq<string>, fillerPerDocument: nat)

  /** Lists that something can be chosen from. */
  type Words = w: WordLists | |w.nouns| > 0 && |w.syllables| > 0 && |w.filler| > 0
    witness WordLists(["a"], ["a"], ["a"], ["a"], 0)

  const NOUNS: seq<string> := [
    "consignment", "manifest", "ledger", "dossier", "charter",
    "registry", "docket", "warrant", "affidavit", "codicil"]

  const ATTRIBUTES: seq<string> := ["custodian", "clearance", "origin", "seal"]

  const SYLLABLES_TO_FEN: seq<string> := ["ka", "ro", "mi", "tev", "sul", "nar", "quo", "bel", "dax", "fen"]
  const SYLLABLES_FROM_ITH: seq<string> := ["ith", "vor", "zan", "lum", "pha", "gri", "osk", "tyr", "wen", "jal"]
  const SYLLABLES: seq<string> := SYLLABLES_TO_FEN + SYLLABLES_FROM_ITH

  /** Each sentence with its first word apart: how it begins is all that the guarantees below ask. */
  const FILLER: seq<string> := [
    "The" + " clerk recorded the transfer without incident.",
    "A" + " duplicate was filed with the standing committee.",
    "Subsequent" + " revisions were entered in the margin.",
    "The" + " entry was countersigned before the close of business.",
    "No" + " objection was raised during the review period.",
    "The" + " record was reconciled against the quarterly index.",
    "Attachments" + " were sealed pending further instruction.",
    "The" + " disposition remains provisional until ratified."]

  function Standard(): WordLists { WordLists(NOUNS, ATTRIBUTES, SYLLABLES, FILLER, 6) }

  function Token(w: Words, s: Stream, counter: nat, syllables: nat): string {
    if syllables == 0 then ""
    else Token(w, s, counter, syllables - 1) + w.syllables[Index(s, counter + syllables - 1, |w.syllables|)]
  }

  method DrawToken(w: Words, rng: SeededRandom, syllables: nat) returns (token: string)
    modifies rng
    ensures token == Token(w, rng.draws, old(rng.counter), syllables)
    ensures rng.counter == old(rng.counter) + syllables
  {
    token := "";
    for k := 0 to syllables
      invariant token == Token(w, rng.draws, old(rng.counter), k)
      invariant rng.counter == old(rng.counter) + k
    {
      var syllable := rng.Choice(w.syllables);
      token := token + syllable.value;
    }
  }

  // ----- What the guarantees below need of the lists -----

  predicate LowerCase(t: string) {
    forall k :: 0 <= k < |t| ==> 'a' <= t[k] <= 'z'
  }

  /** Letters that can follow each other in a value: no `c`, `g` only before `r`, `s` before `k` or `u`. */
  predicate SafePair(x: char, y: char) {
    x != 'c' && (x == 'g' ==> y == 'r') && (x == 's' ==> y == 'k' || y == 'u')
  }

  predicate ValueWord(v: string) {
    && LowerCase(v)
    && (forall k :: 0 <= k < |v| - 1 ==> SafePair(v[k], v[k + 1]))
    && (v != "" ==> v[|v| - 1] != 'c' && v[|v| - 1] != 'g' && v[|v| - 1] != 's')
  }

  /** Two adjacent letters no value has. */
  predicate Unspellable(a: string) {
    exists k :: 0 <= k < |a| - 1 && !SafePair(a[k], a[k + 1])
  }

  ghost predicate Sound(w: Words) {
    && (forall i :: 0 <= i < |w.nouns| ==> LowerCase(w.nouns[i]))
    && (forall i :: 0 <= i < |w.syllables| ==> ValueWord(w.syllables[i]))
    && (forall i :: 0 <= i < |w.filler| ==> w.filler[i] != "" && w.filler[i][0] != 'E')
    && (forall i :: 0 <= i < |w.attributes| ==> LowerCase(w.attributes[i]) && Unspellable(w.attributes[i]))
    && Distinct(w.attributes)
  }

  lemma NounsSound()
    ensures |NOUNS| == 10 && forall i :: 0 <= i < |NOUNS| ==> LowerCase(NOUNS[i])
  {
    assert LowerCase(NOUNS[0]);
    assert LowerCase(NOUNS[1]);
    assert LowerCase(NOUNS[2]);
    assert LowerCase(NOUNS[3]);
    assert LowerCase(NOUNS[4]);
    assert LowerCase(NOUNS[5]);
    assert LowerCase(NOUNS[6]);
    assert LowerCase(NOUNS[7]);
    assert LowerCase(NOUNS[8]);
    assert LowerCase(NOUNS[9]);
  }

  lemma TwoLetters(x: char, y: char)
    requires 'a' <= x <= 'z' && 'a' <= y <= 'z' && SafePair(x, y)
    requires y != 'c' && y != 'g' && y != 's'
    ensures ValueWord([x, y])
  {
  }

  lemma ThreeLetters(x: char, y: char, z: char)
    requires 'a' <= x <= 'z' && 'a' <= y <= 'z' && 'a' <= z <= 'z' && SafePair(x, y) && SafePair(y, z)
    requires z != 'c' && z != 'g' && z != 's'
    ensures ValueWord([x, y, z])
  {
  }

  lemma SyllablesToFenSound()
    ensures |SYLLABLES_TO_FEN| == 10
    ensures forall i :: 0 <= i < 10 ==> ValueWord(SYLLABLES_TO_FEN[i])
  {
    TwoLetters('k', 'a');
    TwoLetters('r', 'o');
    TwoLetters('m', 'i');
    ThreeLetters('t', 'e', 'v');
    ThreeLetters('s', 'u', 'l');
    ThreeLetters('n', 'a', 'r');
    ThreeLetters('q', 'u', 'o');
    ThreeLetters('b', 'e', 'l');
    ThreeLetters('d', 'a', 'x');
    ThreeLetters('f', 'e', 'n');
  }

  lemma SyllablesFromIthSound()
    ensures |SYLLABLES_FROM_ITH| == 10
    ensures forall i :: 0 <= i < 10 ==> ValueWord(SYLLABLES_FROM_ITH[i])
  {
    ThreeLetters('i', 't', 'h');
    ThreeLetters('v', 'o', 'r');
    ThreeLetters('z', 'a', 'n');
    ThreeLetters('l', 'u', 'm');
    ThreeLetters('p', 'h', 'a');
    ThreeLetters('g', 'r', 'i');
    ThreeLetters('o', 's', 'k');
    ThreeLetters('t', 'y', 'r');
    ThreeLetters('w', 'e', 'n');
    ThreeLetters('j', 'a', 'l');
  }

  lemma FillerSound()
    ensures |FILLER| == 8 && forall i :: 0 <= i < |FILLER| ==> FILLER[i] != "" && FILLER[i][0] != 'E'
  {
    assert FILLER[0][0] == 'T';
    assert FILLER[1][0] == 'A';
    assert FILLER[2][0] == 'S';
    assert FILLER[3][0] == 'T';
    assert FILLER[4][0] == 'N';
    assert FILLER[5][0] == 'T';
    assert FILLER[6][0] == 'A';
    assert FILLER[7][0] == 'T';
  }

  lemma AttributesSound()
    ensures |ATTRIBUTES| == 4 && Distinct(ATTRIBUTES)
    ensures forall i :: 0 <= i < |ATTRIBUTES| ==> LowerCase(ATTRIBUTES[i]) && Unspellable(ATTRIBUTES[i])
  {
    var custodian, clearance, origin, seal := ATTRIBUTES[0], ATTRIBUTES[1], ATTRIBUTES[2], ATTRIBUTES[3];
    assert !SafePair(custodian[0], custodian[1]) && !SafePair(clearance[0], clearance[1]);
    assert !SafePair(origin[3], origin[4]) && !SafePair(seal[0], seal[1]);
    assert custodian[1] != clearance[1];
  }

  /** The lists the source ships have everything the archive's guarantees need. */
  lemma StandardIsSound()
    ensures |NOUNS| > 0 && |SYLLABLES| > 0 && |FILLER| > 0 && Sound(Standard())
  {
    NounsSound();
    SyllablesToFenSound();
    SyllablesFromIthSound();
    FillerSound();
    AttributesSound();
  }

  // ----- What a value can contain -----

  lemma ConcatSafe(a: string, b: string)
    requires ValueWord(a) && ValueWord(b)
    ensures ValueWord(a + b)
  {
    var ab := a + b;
    forall k | 0 <= k < |ab| - 1 ensures SafePair(ab[k], ab[k + 1]) {
      if k < |a| - 1 {
        assert SafePair(a[k], a[k + 1]);
      } else if k >= |a| {
        PairOf(b, k - |a|);
      } else {
        assert ab[k] == a[|a| - 1];
      }
    }
    assert LowerCase(ab) by {
      forall k | 0 <= k < |ab| ensures 'a' <= ab[k] <= 'z' {
        if k >= |a| {
          assert ab[k] == b[k - |a|];
        }
      }
    }
    if b != "" {
      assert ab[|ab| - 1] == b[|b| - 1];
    } else {
      assert ab == a;
    }
  }

  lemma {:induction false} TokenSafe(w: Words, s: Stream, counter: nat, syllables: nat)
    requires Sound(w)
    ensures ValueWord(Token(w, s, counter, syllables))
  {
    if syllables > 0 {
      TokenSafe(w, s, counter, syllables - 1);
      ConcatSafe(Token(w, s, counter, syllables - 1),
                 w.syllables[Index(s, counter + syllables - 1, |w.syllables|)]);
    }
  }

  /** An entity's name: lower case words joined by a hyphen. */
  predicate EntityName(e: string) {
    && (forall k :: 0 <= k < |e| ==> e[k] == '-' || 'a' <= e[k] <= 'z')
    && '-' in e
  }

  /** What the search index is keyed by. */
  predicate Searchable(w: Words, t: string) { t in w.attributes || EntityName(t) }

  /** No value, whatever it is drawn to be, contains an entity's or an attribute's name. */
  lemma NoTermInValue(w: Words, v: string, t: string)
    requires Sound(w) && ValueWord(v) && Searchable(w, t)
    ensures !Contains(v, t)
  {
    if Contains(v, t) {
      var i :| 0 <= i <= |v| - |t| && OccursAt(v, t, i);
      if t in w.attributes {
        var k: nat :| k < |t| - 1 && !SafePair(t[k], t[k + 1]);
        PairAt(v, t, i, k);
      } else {
        HyphenOf(v, t, i);
      }
    }
  }

  /** Where a value holds a text, two adjacent letters of it are two of the value's. */
  lemma PairAt(v: string, t: string, i: nat, k: nat)
    requires ValueWord(v) && OccursAt(v, t, i) && k < |t| - 1
    ensures SafePair(t[k], t[k + 1])
  {
    OccursChar(v, t, i, k);
    OccursChar(v, t, i, k + 1);
    PairOf(v, i + k);
  }

  lemma HyphenOf(v: string, t: string, i: nat)
    requires LowerCase(v) && '-' in t
    ensures !OccursAt(v, t, i)
  {
    var k :| 0 <= k < |t| && t[k] == '-';
    if OccursAt(v, t, i) {
      OccursChar(v, t, i, k);
    }
  }

  lemma PairOf(v: string, k: nat)
    requires ValueWord(v) && k < |v| - 1
    ensures SafePair(v[k], v[k + 1])
  {
  }

  lemma TermIsPlain(w: Words, t: string)
    requires Sound(w) && Searchable(w, t)
    ensures t != "" && Fold(t) == t && ' ' !in t && '.' !in t && '\n' !in t
  {
  }

  lemma ValueFolds(v: string)
    requires ValueWord(v)
    ensures Fold(v) == v
  {
  }

  // ----- The entities of an archive -----

  function Name(w: Words, s: Stream, counter: nat, syllables: nat): string {
    w.nouns[Index(s, counter, |w.nouns|)] + "-" + Token(w, s, counter + 1, syllables)
  }

  lemma NameIsEntity(w: Words, s: Stream, counter: nat, syllables: nat)
    requires Sound(w)
    ensures EntityName(Name(w, s, counter, syllables))
  {
    TokenSafe(w, s, counter + 1, syllables);
    Hyphenated(w.nouns[Index(s, counter, |w.nouns|)], Token(w, s, counter + 1, syllables));
  }

  lemma Hyphenated(a: string, b: string)
    requires LowerCase(a) && LowerCase(b)
    ensures EntityName(a + "-" + b)
  {
    assert (a + "-" + b)[|a|] == '-';
  }

  /** The names drawn at first. */
  function First(w: Words, s: Stream): nat -> string {
    (k: nat) => Name(w, s, 3 * k, 2)
  }

  function ListOf(f: nat -> string, count: nat): (names: seq<string>)
    ensures |names| == count
  {
    if count == 0 then [] else ListOf(f, count - 1) + [f(count - 1)]
  }

  function FirstNames(w: Words, s: Stream, count: nat): seq<string> {
    ListOf(First(w, s), count)
  }

  /** The names drawn one by one when some of the first were repeats. */
  function Refill(w: Words, s: Stream, count: nat): nat -> string {
    (k: nat) => Name(w, s, 3 * count + 4 * k, 3)
  }

  /** The entities after `refills` rounds of the loop that makes up for repeated names. */
  function AfterRefills(first: seq<string>, more: nat -> string, refills: nat): seq<string>
    decreases refills
  {
    if refills == 0 then SortedSet(first)
    else SortedSet(AfterRefills(first, more, refills - 1) + [more(refills - 1)])
  }

  /** There are enough different names after at most `bound` refills. */
  predicate Supplies(first: seq<string>, more: nat -> string, bound: nat) {
    |AfterRefills(first, more, bound)| >= |first|
  }

  /** The first time there are enough. */
  function EntitiesFrom(first: seq<string>, more: nat -> string, refills: nat, bound: nat): seq<string>
    requires refills <= bound && Supplies(first, more, bound)
    decreases bound - refills
  {
    if |AfterRefills(first, more, refills)| >= |first| then AfterRefills(first, more, refills)
    else EntitiesFrom(first, more, refills + 1, bound)
  }

  method DrawName(w: Words, rng: SeededRandom, syllables: nat) returns (name: string)
    modifies rng
    ensures name == Name(w, rng.draws, old(rng.counter), syllables)
    ensures rng.counter == old(rng.counter) + 1 + syllables
  {
    var noun := rng.Choice(w.nouns);
    var token := DrawToken(w, rng, syllables);
    name := noun.value + "-" + token;
  }

  method DrawFirst(w: Words, rng: SeededRandom, count: nat) returns (names: seq<string>)
    requires rng.counter == 0
    modifies rng
    ensures names == FirstNames(w, rng.draws, count) && |names| == count && rng.counter == 3 * count
  {
    names := [];
    for k := 0 to count
      invariant names == ListOf(First(w, rng.draws), k) && rng.counter == 3 * k
    {
      var name := DrawFirstOf(w, rng, k);
      names := names + [name];
    }
  }

  method DrawFirstOf(w: Words, rng: SeededRandom, ghost k: nat) returns (name: string)
    requires rng.counter == 3 * k
    modifies rng
    ensures name == First(w, rng.draws)(k)
    ensures rng.counter == old(rng.counter) + 3
  {
    name := DrawName(w, rng, 2);
  }

  method DrawRefill(w: Words, rng: SeededRandom, count: nat, ghost k: nat) returns (name: string)
    requires rng.counter == 3 * count + 4 * k
    modifies rng
    ensures name == Refill(w, rng.draws, count)(k)
    ensures rng.counter == old(rng.counter) + 4
  {
    RefillIs(w, rng.draws, count, k);
    name := DrawName(w, rng, 3);
  }

  lemma RefillIs(w: Words, s: Stream, count: nat, k: nat)
    ensures Refill(w, s, count)(k) == Name(w, s, 3 * count + 4 * k, 3)
  {
  }

  lemma StillOwed(first: seq<string>, more: nat -> string, refills: nat, bound: nat)
    requires refills <= bound && Supplies(first, more, bound)
    requires |AfterRefills(first, more, refills)| < |first|
    ensures refills < bound
    ensures EntitiesFrom(first, more, refills, bound) == EntitiesFrom(first, more, refills + 1, bound)
  {
  }

  method MakeUp(w: Words, rng: SeededRandom, first: seq<string>, ghost bound: nat) returns (entities: seq<string>)
    requires rng.counter == 3 * |first| && Supplies(first, Refill(w, rng.draws, |first|), bound)
    modifies rng
    ensures entities == EntitiesFrom(first, Refill(w, rng.draws, |first|), 0, bound)
  {
    ghost var more := Refill(w, rng.draws, |first|);
    entities := SortedSet(first);
    ghost var refills := 0;
    while |entities| < |first|
      invariant refills <= bound && rng.counter == 3 * |first| + 4 * refills
      invariant entities == AfterRefills(first, more, refills)
      invariant EntitiesFrom(first, more, refills, bound) == EntitiesFrom(first, more, 0, bound)
      decreases bound - refills
    {
      StillOwed(first, more, refills, bound);
      var name := DrawRefill(w, rng, |first|, refills);
      entities := SortedSet(entities + [name]);
      refills := refills + 1;
    }
  }

  method DrawEntities(w: Words, rng: SeededRandom, count: nat, ghost bound: nat) returns (entities: seq<string>)
    requires rng.counter == 0
    requires Supplies(FirstNames(w, rng.draws, count), Refill(w, rng.draws, count), bound)
    modifies rng
    ensures entities == EntitiesFrom(FirstNames(w, rng.draws, count), Refill(w, rng.draws, count), 0, bound)
  {
    var first := DrawFirst(w, rng, count);
    entities := MakeUp(w, rng, first, bound);
  }

  /** What a list of entities promises. */
  ghost predicate Entities(names: seq<string>) {
    Ascending(names) && AllNames(names)
  }

  predicate AllNames(names: seq<string>) {
    forall e :: e in names ==> EntityName(e)
  }

  lemma NamesBecomeEntities(names: seq<string>)
    requires AllNames(names)
    ensures Entities(SortedSet(names))
  {
    SortedSetIs(names);
  }

  lemma OneMoreName(names: seq<string>, name: string)
    requires AllNames(names) && EntityName(name)
    ensures AllNames(names + [name])
  {
  }

  lemma {:induction false} ListIsNames(f: nat -> string, count: nat)
    requires forall k :: EntityName(f(k))
    ensures AllNames(ListOf(f, count))
  {
    if count > 0 {
      ListIsNames(f, count - 1);
      OneMoreName(ListOf(f, count - 1), f(count - 1));
    }
  }

  lemma {:induction false} RefillsAreEntities(first: seq<string>, more: nat -> string, refills: nat)
    requires AllNames(first) && forall k :: EntityName(more(k))
    ensures Entities(AfterRefills(first, more, refills))
    decreases refills
  {
    if refills == 0 {
      NamesBecomeEntities(first);
    } else {
      RefillsAreEntities(first, more, refills - 1);
      OneMoreName(AfterRefills(first, more, refills - 1), more(refills - 1));
      NamesBecomeEntities(AfterRefills(first, more, refills - 1) + [more(refills - 1)]);
    }
  }

  lemma {:induction false} EntitiesAreNames(first: seq<string>, more: nat -> string, refills: nat, bound: nat)
    requires refills <= bound && Supplies(first, more, bound)
    requires AllNames(first) && forall k :: EntityName(more(k))
    ensures Entities(EntitiesFrom(first, more, refills, bound))
    ensures |EntitiesFrom(first, more, refills, bound)| >= |first|
    decreases bound - refills
  {
    if |AfterRefills(first, more, refills)| >= |first| {
      RefillsAreEntities(first, more, refills);
    } else {
      EntitiesAreNames(first, more, refills + 1, bound);
    }
  }

  lemma FirstAreNames(w: Words, s: Stream)
    requires Sound(w)
    ensures forall k: nat :: EntityName(First(w, s)(k))
  {
    forall k: nat ensures EntityName(First(w, s)(k)) {
      NameIsEntity(w, s, 3 * k, 2);
    }
  }

  lemma RefillsAreNames(w: Words, s: Stream, count: nat)
    requires Sound(w)
    ensures forall k: nat :: EntityName(Refill(w, s, count)(k))
  {
    forall k: nat ensures EntityName(Refill(w, s, count)(k)) {
      NameIsEntity(w, s, 3 * count + 4 * k, 3);
    }
  }

  /** The drawn entities are different names in ascending order. */
  lemma DrawnAreEntities(w: Words, s: Stream, count: nat, bound: nat)
    requires Sound(w)
    requires Supplies(FirstNames(w, s, count), Refill(w, s, count), bound)
    ensures Entities(EntitiesFrom(FirstNames(w, s, count), Refill(w, s, count), 0, bound))
  {
    FirstAreNames(w, s);
    ListIsNames(First(w, s), count);
    RefillsAreNames(w, s, count);
    EntitiesAreNames(FirstNames(w, s, count), Refill(w, s, count), 0, bound);
  }
}
