/** src/enclave/environments/families/archive.py: acting in a built world, and grading an answer. */
module ArchiveEnvironments {
  import opened Archive
  import opened Strings
  import opened Sorting
  import opened Wrappers

  /** `term` and `docId` are the arguments as text. */
  datatype Action = ListAll | Search(term: string) | Read(docId: string) | Other

  /** What an answer parses to; a member that is null is None, any other its text. */
  datatype Answer = NotJson | NotAnObject | Members(values: map<string, Option<string>>)

  datatype Detail =
    | InvalidJson
    | NoObject
    | AllCorrect(count: nat)
    | Differences(missing: seq<string>, wrong: seq<string>)

  /** `expected` holds the graded values when the answer differs from them. */
  datatype Grade = Grade(solved: bool, detail: Detail, expected: Option<map<string, string>>)

  function TitleIn(documents: map<string, Document>, id: string): string {
    if id in documents then documents[id].title else ""
  }

  /** What an action shows. */
  function Shown(world: World, action: Action): Result<string, ArchiveError> {
    match action
    case ListAll => Success(Join(Map(world.order, (id: string) => id + "\t" + TitleIn(world.documents, id)), '\n'))
    case Search(text) =>
      var term := Fold(Strip(text));
      if term == "" then Failure(EmptyTerm)
      else if Listed(world.index, term) == [] then Success("no documents matched")
      else Success(Join(Listed(world.index, term), '\n'))
    case Read(text) =>
      var id := Strip(text);
      if id in world.documents then Success(world.documents[id].title + "\n\n" + world.documents[id].body)
      else Failure(NoSuchDocument)
    case Other => Failure(UnsupportedAction)
  }

  /** Graded keys the answer has no value for. */
  function Missing(graded: seq<string>, answer: map<string, string>): seq<string> {
    if graded == [] then [] else
      var n := |graded| - 1;
      Missing(graded[..n], answer) + if graded[n] in answer then [] else [graded[n]]
  }

  predicate Differs(facts: map<string, Fact>, answer: map<string, string>, normalise: string -> string, key: string) {
    key in answer && key in facts && normalise(answer[key]) != normalise(facts[key].value)
  }

  /** Graded keys the answer has a value for that differs from the fact's after normalising both. */
  function Wrong(
      graded: seq<string>, facts: map<string, Fact>, answer: map<string, string>, normalise: string -> string):
    seq<string>
  {
    if graded == [] then [] else
      var n := |graded| - 1;
      Wrong(graded[..n], facts, answer, normalise)
        + if Differs(facts, answer, normalise, graded[n]) then [graded[n]] else []
  }

  /** The members that are not null. */
  function Given(values: map<string, Option<string>>): map<string, string> {
    map k | k in values && values[k].Some? :: values[k].value
  }

  function Expected(world: World): map<string, string> {
    map k | k in world.graded && k in world.facts :: world.facts[k].value
  }

  function Marked(world: World, answer: Answer, normalise: string -> string): Grade {
    match answer
    case NotJson => Grade(false, InvalidJson, None)
    case NotAnObject => Grade(false, NoObject, None)
    case Members(values) =>
      var missing := Missing(world.graded, Given(values));
      var wrong := Wrong(world.graded, world.facts, Given(values), normalise);
      if missing == [] && wrong == [] then Grade(true, AllCorrect(|world.graded|), None)
      else Grade(false, Differences(SortBy(missing, LexLe), SortBy(wrong, LexLe)), Some(Expected(world)))
  }

  class ArchiveEnvironment {
    const world: World
    var consulted: seq<string>

    constructor (world: World)
      ensures this.world == world && consulted == []
    {
      this.world, consulted := world, [];
    }

    method Act(action: Action) returns (r: Result<string, ArchiveError>)
      modifies this
      ensures r == Shown(world, action)
      ensures consulted
        == old(consulted)
           + if action.Read? && Strip(action.docId) in world.documents then [Strip(action.docId)] else []
    {
      match action
      case ListAll =>
        r := Success(Join(Map(world.order, (id: string) => id + "\t" + TitleIn(world.documents, id)), '\n'));
      case Search(text) =>
        var term := Fold(Strip(text));
        if term == "" {
          return Failure(EmptyTerm);
        }
        var hits := Listed(world.index, term);
        return Success(if hits == [] then "no documents matched" else Join(hits, '\n'));
      case Read(text) =>
        var id := Strip(text);
        if id !in world.documents {
          return Failure(NoSuchDocument);
        }
        consulted := consulted + [id];
        return Success(world.documents[id].title + "\n\n" + world.documents[id].body);
      case Other =>
        return Failure(UnsupportedAction);
    }

    method GradeAnswer(answer: Answer, normalise: string -> string) returns (r: Result<Grade, ArchiveError>)
      ensures answer.Members? && (exists k :: k in world.graded && k !in world.facts) ==>
        r == Failure(GradedKeyAbsent)
      ensures !answer.Members? || (forall k :: k in world.graded ==> k in world.facts) ==>
        r == Success(Marked(world, answer, normalise))
    {
      if answer.NotJson? {
        return Success(Grade(false, InvalidJson, None));
      }
      if answer.NotAnObject? {
        return Success(Grade(false, NoObject, None));
      }
      ghost var given := Given(answer.values);
      var missing: seq<string>, wrong: seq<string> := [], [];
      for n := 0 to |world.graded|
        invariant forall k :: k in world.graded[..n] ==> k in world.facts
        invariant missing == Missing(world.graded[..n], given)
        invariant wrong == Wrong(world.graded[..n], world.facts, given, normalise)
      {
        var key := world.graded[n];
        assert world.graded[..n + 1] == world.graded[..n] + [key];
        if key !in world.facts {
          return Failure(GradedKeyAbsent);
        }
        if key !in answer.values || answer.values[key].None? {
          missing := missing + [key];
        } else if normalise(answer.values[key].value) != normalise(world.facts[key].value) {
          wrong := wrong + [key];
        }
      }
      assert world.graded[..|world.graded|] == world.graded;
      if missing != [] || wrong != [] {
        return Success(Grade(false, Differences(SortBy(missing, LexLe), SortBy(wrong, LexLe)), Some(Expected(world))));
      }
      return Success(Grade(true, AllCorrect(|world.graded|), None));
    }
  }

  // ----- What an action shows -----

  function FoundText(hits: seq<string>): string {
    if hits == [] then "no documents matched" else Join(hits, '\n')
  }

  /** However a term is padded and whichever case it is in, a search shows what the index lists for it. */
  lemma SearchShows(world: World, before: string, spelled: string, after: string)
    requires Blank(before) && Bare(spelled) && Blank(after)
    ensures Shown(world, Search(before + spelled + after)) == Success(FoundText(Listed(world.index, Fold(spelled))))
  {
    StripIs(before, spelled, after);
  }

  lemma {:induction false} BlankStrips(s: string)
    requires Blank(s)
    ensures Strip(s) == ""
  {
    if s != "" {
      assert IsSpace(s[0]) && Blank(s[1..]);
      BlankStrips(s[1..]);
    }
  }

  /** However an identifier is padded, reading shows title and body of that document, or fails without one. */
  lemma ReadShows(world: World, before: string, id: string, after: string)
    requires Blank(before) && Bare(id) && Blank(after)
    ensures Shown(world, Read(before + id + after))
      == if id in world.documents
         then Success(world.documents[id].title + "\n\n" + world.documents[id].body)
         else Failure(NoSuchDocument)
  {
    StripIs(before, id, after);
  }

  /** A blank term is an error, and so is an action there is no tool for. */
  lemma OthersFail(world: World, blank: string)
    requires Blank(blank)
    ensures Shown(world, Search(blank)) == Failure(EmptyTerm)
    ensures Shown(world, Action.Other) == Failure(UnsupportedAction)
  {
    BlankStrips(blank);
    assert Fold("") == "";
  }

  /** Listing shows every document on a line of its own, in order: identifier, tab, title. */
  lemma ListShows(world: World) returns (lines: seq<string>)
    requires forall id :: id in world.order ==> id in world.documents
    ensures Shown(world, ListAll) == Success(Join(lines, '\n')) && |lines| == |world.order|
    ensures forall i :: 0 <= i < |lines| ==>
      && world.order[i] in world.documents
      && lines[i] == world.order[i] + "\t" + world.documents[world.order[i]].title
  {
    var line := (id: string) => id + "\t" + TitleIn(world.documents, id);
    lines := Map(world.order, line);
    forall i | 0 <= i < |lines| ensures world.order[i] in world.documents && lines[i] == line(world.order[i]) {
      assert world.order[i] in world.order;
    }
  }

  // ----- What a grade means -----

  lemma {:induction false} MissingExactly(graded: seq<string>, given: map<string, string>, k: string)
    ensures k in Missing(graded, given) <==> k in graded && k !in given
  {
    if graded != [] {
      var n := |graded| - 1;
      MissingExactly(graded[..n], given, k);
      assert graded == graded[..n] + [graded[n]];
    }
  }

  lemma {:induction false} WrongExactly(
      graded: seq<string>, facts: map<string, Fact>, given: map<string, string>, normalise: string -> string, k: string)
    ensures k in Wrong(graded, facts, given, normalise) <==> k in graded && Differs(facts, given, normalise, k)
  {
    if graded != [] {
      var n := |graded| - 1;
      WrongExactly(graded[..n], facts, given, normalise, k);
      assert graded == graded[..n] + [graded[n]];
    }
  }

  lemma SortedHas(names: seq<string>, k: string)
    ensures k in SortBy(names, LexLe) <==> k in names
  {
    assert k in SortBy(names, LexLe) <==> k in multiset(SortBy(names, LexLe));
    assert k in names <==> k in multiset(names);
  }

  /** `k` has the value the world gives it, up to normalising. */
  predicate Answered(world: World, values: map<string, Option<string>>, normalise: string -> string, k: string)
    requires k in world.facts
  {
    k in values && values[k].Some? && normalise(values[k].value) == normalise(world.facts[k].value)
  }

  /**
   * A grade names exactly what is amiss: the graded keys without a value as missing, those with
   * another value as wrong, and the answer solves when there are neither.
   */
  lemma GradeNames(world: World, values: map<string, Option<string>>, normalise: string -> string, k: string)
    requires k in world.graded && k in world.facts
    ensures var grade := Marked(world, Members(values), normalise);
      && (grade.solved ==> Answered(world, values, normalise, k))
      && (!grade.solved ==>
            && grade.detail.Differences?
            && (k in grade.detail.missing <==> k !in values || values[k].None?)
            && (k in grade.detail.missing || k in grade.detail.wrong <==> !Answered(world, values, normalise, k))
            && grade.expected.Some? && k in grade.expected.value
            && grade.expected.value[k] == world.facts[k].value)
  {
    var missing := Missing(world.graded, Given(values));
    var wrong := Wrong(world.graded, world.facts, Given(values), normalise);
    MissingExactly(world.graded, Given(values), k);
    WrongExactly(world.graded, world.facts, Given(values), normalise, k);
    SortedHas(missing, k);
    SortedHas(wrong, k);
  }

  /** An answer solves exactly when it gives every graded key its value, up to normalising. */
  lemma SolvesExactly(world: World, values: map<string, Option<string>>, normalise: string -> string)
    requires forall k :: k in world.graded ==> k in world.facts
    ensures Marked(world, Members(values), normalise).solved
      <==> forall k :: k in world.graded ==> Answered(world, values, normalise, k)
  {
    var missing := Missing(world.graded, Given(values));
    var wrong := Wrong(world.graded, world.facts, Given(values), normalise);
    forall k | k in world.graded
      ensures k in missing || k in wrong <==> !Answered(world, values, normalise, k)
    {
      MissingExactly(world.graded, Given(values), k);
      WrongExactly(world.graded, world.facts, Given(values), normalise, k);
    }
    if missing != [] {
      MissingExactly(world.graded, Given(values), missing[0]);
    }
    if wrong != [] {
      WrongExactly(world.graded, world.facts, Given(values), normalise, wrong[0]);
    }
  }
}
