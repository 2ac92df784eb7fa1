/** src/enclave/environments/prf.py: draws from a hash in counter mode, over an arbitrary hash. */
module Prf {
  import opened Numbers
  import opened Sorting
  import opened Strings
  import opened Sums
  import opened Wrappers

  datatype PrfError = BoundNotPositive | NothingToChoose | SampleTooLarge

  /** The numbers a seed yields, by counter. */
  type Stream = nat -> nat

  /** `hash` is the digest of a text, its first eight bytes read as a number. */
  function StreamOf(hash: string -> nat, seed: string): Stream {
    (counter: nat) => hash(seed + "\0" + Decimal(counter))
  }

  function Index(s: Stream, counter: nat, bound: nat): (i: nat)
    requires bound > 0
    ensures i < bound
  {
    Modulo(s(counter), bound)
  }

  /** `pool` after `pool.pop(i)`. */
  function Without<T>(pool: seq<T>, i: nat): (r: seq<T>)
    requires i < |pool|
    ensures |r| == |pool| - 1
  {
    pool[..i] + pool[i + 1..]
  }

  /** `count` draws without replacement, in the order they are drawn. */
  function Drawn<T>(s: Stream, counter: nat, pool: seq<T>, count: nat): (out: seq<T>)
    requires count <= |pool|
    ensures |out| == count
    decreases count
  {
    if count == 0 then [] else
      var i := Index(s, counter, |pool|);
      [pool[i]] + Drawn(s, counter + 1, Without(pool, i), count - 1)
  }

  function SampleOf(s: Stream, counter: nat, items: seq<string>, count: nat): seq<string>
    requires count <= |items|
  {
    Drawn(s, counter, SortBy(items, LexLe), count)
  }

  function ShuffleOf(s: Stream, counter: nat, items: seq<string>): seq<string> {
    Drawn(s, counter, SortBy(items, LexLe), |items|)
  }

  class SeededRandom {
    /** The numbers of `seed`: `hash(seed, 0 byte, counter)` for each counter. */
    const draws: Stream
    var counter: nat

    constructor (hash: string -> nat, seed: string)
      ensures draws == StreamOf(hash, seed) && counter == 0
    {
      draws, counter := StreamOf(hash, seed), 0;
    }

    method Next() returns (draw: nat)
      modifies this
      ensures draw == draws(old(counter)) && counter == old(counter) + 1
    {
      draw := draws(counter);
      counter := counter + 1;
    }

    method Below(bound: int) returns (r: Result<nat, PrfError>)
      modifies this
      ensures bound <= 0 ==> r == Failure(BoundNotPositive) && counter == old(counter)
      ensures bound > 0 ==> r == Success(Index(draws, old(counter), bound)) && counter == old(counter) + 1
    {
      if bound <= 0 {
        return Failure(BoundNotPositive);
      }
      var draw := Next();
      ModuloIs(draw, bound);
      return Success(draw % bound);
    }

    method Choice(items: seq<string>) returns (r: Result<string, PrfError>)
      modifies this
      ensures items == [] ==> r == Failure(NothingToChoose) && counter == old(counter)
      ensures items != [] ==>
        r == Success(items[Index(draws, old(counter), |items|)]) && counter == old(counter) + 1
    {
      if items == [] {
        return Failure(NothingToChoose);
      }
      var i := Below(|items|);
      return Success(items[i.value]);
    }

    method Sample(items: seq<string>, count: int) returns (r: Result<seq<string>, PrfError>)
      modifies this
      ensures count > |items| ==> r == Failure(SampleTooLarge) && counter == old(counter)
      ensures count < 0 ==> r == Success([]) && counter == old(counter)
      ensures 0 <= count <= |items| ==>
        r == Success(SampleOf(draws, old(counter), items, count)) && counter == old(counter) + count
    {
      if count > |items| {
        return Failure(SampleTooLarge);
      }
      if count < 0 {
        return Success([]);
      }
      var picked := Draw(SortBy(items, LexLe), count);
      return Success(picked);
    }

    method Shuffled(items: seq<string>) returns (out: seq<string>)
      modifies this
      ensures out == ShuffleOf(draws, old(counter), items)
      ensures counter == old(counter) + |items|
    {
      out := Draw(SortBy(items, LexLe), |items|);
    }

    /** `taken.append(pool.pop(self.below(len(pool))))`. */
    method TakeNext(pool: seq<string>, taken: seq<string>) returns (more: seq<string>, rest: seq<string>)
      requires pool != []
      modifies this
      ensures var i := Index(draws, old(counter), |pool|); more == taken + [pool[i]] && rest == Without(pool, i)
      ensures counter == old(counter) + 1
    {
      var i := Below(|pool|);
      more, rest := taken + [pool[i.value]], Without(pool, i.value);
    }

    /** The loop `sample` and `shuffled` share: pop from the pool at random. */
    method Draw(items: seq<string>, count: nat) returns (out: seq<string>)
      requires count <= |items|
      modifies this
      ensures out == Drawn(draws, old(counter), items, count)
      ensures counter == old(counter) + count
    {
      var pool := items;
      out := [];
      ghost var whole := Drawn(draws, counter, items, count);
      Begin(draws, counter, items, count);
      for k := 0 to count
        invariant counter == old(counter) + k && |pool| == |items| - k
        invariant Leads(draws, counter, pool, count - k, out, whole)
      {
        TakeOne(draws, counter, pool, count - k, out, whole);
        out, pool := TakeNext(pool, out);
      }
      TakenAll(draws, counter, pool, out, whole);
    }
  }

  /** `taken` so far, and the draws still to come, give `whole`. */
  ghost predicate Leads<T>(s: Stream, counter: nat, pool: seq<T>, count: nat, taken: seq<T>, whole: seq<T>) {
    count <= |pool| && taken + Drawn(s, counter, pool, count) == whole
  }

  lemma Begin<T>(s: Stream, counter: nat, pool: seq<T>, count: nat)
    requires count <= |pool|
    ensures Leads(s, counter, pool, count, [], Drawn(s, counter, pool, count))
  {
  }

  lemma TakeOne<T>(s: Stream, counter: nat, pool: seq<T>, count: nat, taken: seq<T>, whole: seq<T>)
    requires count > 0 && Leads(s, counter, pool, count, taken, whole)
    ensures var i := Index(s, counter, |pool|);
      Leads(s, counter + 1, Without(pool, i), count - 1, taken + [pool[i]], whole)
  {
    var i := Index(s, counter, |pool|);
    assert taken + Drawn(s, counter, pool, count)
      == taken + [pool[i]] + Drawn(s, counter + 1, Without(pool, i), count - 1);
  }

  lemma TakenAll<T>(s: Stream, counter: nat, pool: seq<T>, taken: seq<T>, whole: seq<T>)
    requires Leads(s, counter, pool, 0, taken, whole)
    ensures taken == whole
  {
  }

  // ----- What the draws are -----

  /** What is drawn comes from the pool, no item more often than it is there. */
  lemma {:induction false} DrawnNoMoreOften<T>(s: Stream, counter: nat, pool: seq<T>, count: nat, x: T)
    requires count <= |pool|
    ensures multiset(Drawn(s, counter, pool, count))[x] <= multiset(pool)[x]
    decreases count
  {
    if count > 0 {
      var i := Index(s, counter, |pool|);
      var rest := Without(pool, i);
      DrawnNoMoreOften(s, counter + 1, rest, count - 1, x);
      OneMore(pool[i], Drawn(s, counter + 1, rest, count - 1));
      PoppedCount(pool, i, x);
    }
  }

  lemma OneMore<T>(x: T, s: seq<T>)
    ensures multiset([x] + s) == multiset{x} + multiset(s)
  {
  }

  lemma PoppedCount<T>(pool: seq<T>, i: nat, x: T)
    requires i < |pool|
    ensures multiset(pool)[x] == multiset(Without(pool, i))[x] + if x == pool[i] then 1 else 0
  {
    assert pool == pool[..i] + ([pool[i]] + pool[i + 1..]);
  }

  lemma WholePool<T>(s: Stream, counter: nat, pool: seq<T>)
    ensures multiset(Drawn(s, counter, pool, |pool|)) == multiset(pool)
  {
    var out := multiset(Drawn(s, counter, pool, |pool|));
    forall x ensures out[x] <= multiset(pool)[x] {
      DrawnNoMoreOften(s, counter, pool, |pool|, x);
    }
    SameSize(out, multiset(pool));
  }

  lemma SameSize<T>(a: multiset<T>, b: multiset<T>)
    requires |a| == |b| && forall x :: a[x] <= b[x]
    ensures a == b
  {
    assert b == a + (b - a);
  }

  /** `shuffled` returns the same items. */
  lemma ShuffleKeepsItems(s: Stream, counter: nat, items: seq<string>)
    ensures multiset(ShuffleOf(s, counter, items)) == multiset(items)
  {
    WholePool(s, counter, SortBy(items, LexLe));
  }

  /** A sample of distinct items has no repeats and nothing else in it. */
  lemma SampleIsSubset(s: Stream, counter: nat, items: seq<string>, count: nat)
    requires count <= |items|
    requires forall i, j :: 0 <= i < j < |items| ==> items[i] != items[j]
    ensures var out := SampleOf(s, counter, items, count);
      && (forall i, j :: 0 <= i < j < |out| ==> out[i] != out[j])
      && forall x :: x in out ==> x in items
  {
    var out := SampleOf(s, counter, items, count);
    forall x | x in out ensures x in items {
      assert x in multiset(out);
      DrawnNoMoreOften(s, counter, SortBy(items, LexLe), count, x);
    }
    forall i, j | 0 <= i < j < |out| ensures out[i] != out[j] {
      DrawnNoMoreOften(s, counter, SortBy(items, LexLe), count, out[i]);
      if out[i] == out[j] {
        RepeatCounts(out, i, j);
        DistinctCounts(items, out[i]);
      }
    }
  }

  /** A shuffle does not depend on the order its items are given in. */
  lemma ShuffleOrderIndependent(s: Stream, counter: nat, a: seq<string>, b: seq<string>)
    requires multiset(a) == multiset(b)
    ensures ShuffleOf(s, counter, a) == ShuffleOf(s, counter, b)
  {
    LexOrder();
    SortByPermutation(a, b, LexLe);
    assert |a| == |multiset(a)| && |b| == |multiset(b)|;
  }

  /** `rest` is what is left of `items`, in order, once `gone` have been taken. */
  ghost predicate Left(items: seq<string>, gone: seq<string>, rest: seq<string>) {
    Sorted(rest, LexLe) && multiset(rest) + multiset(gone) == multiset(items)
  }

  /** The `k`-th taken stands at position `draw` of `rest`, what was left of `items` by then, in order. */
  ghost predicate TakenAt(items: seq<string>, out: seq<string>, k: nat, rest: seq<string>, draw: nat) {
    k < |out| && Left(items, out[..k], rest) && draw < |rest| && out[k] == rest[draw]
  }

  lemma {:induction false} WithoutSorted(pool: seq<string>, i: nat)
    requires Sorted(pool, LexLe) && i < |pool|
    ensures Sorted(Without(pool, i), LexLe)
    ensures multiset(Without(pool, i)) + multiset{pool[i]} == multiset(pool)
  {
    assert pool == pool[..i] + ([pool[i]] + pool[i + 1..]);
  }

  lemma {:induction false} DrawnFirst<T>(s: Stream, counter: nat, pool: seq<T>, count: nat)
    requires 0 < count <= |pool|
    ensures var i := Index(s, counter, |pool|);
      Drawn(s, counter, pool, count) == [pool[i]] + Drawn(s, counter + 1, Without(pool, i), count - 1)
  {
  }

  lemma {:induction false} TakenFirst(pool: seq<string>, i: nat, out: seq<string>)
    requires Sorted(pool, LexLe) && i < |pool| && out != [] && out[0] == pool[i]
    ensures TakenAt(pool, out, 0, pool, i)
  {
    assert out[..0] == [];
  }

  lemma {:induction false} TakenLater(
      pool: seq<string>, i: nat, later: seq<string>, out: seq<string>, k: nat, rest: seq<string>, draw: nat)
    requires Sorted(pool, LexLe) && i < |pool| && k > 0 && TakenAt(Without(pool, i), later, k - 1, rest, draw)
    requires out == [pool[i]] + later
    ensures TakenAt(pool, out, k, rest, draw)
  {
    WithoutSorted(pool, i);
    assert out[..k] == [pool[i]] + later[..k - 1];
    OneMore(pool[i], later[..k - 1]);
  }

  /** Each draw takes the item at the number drawn of what is left, in order: `left` of them, drawn `at`. */
  lemma {:induction false} DrawnInOrder(
      s: Stream, counter: nat, pool: seq<string>, out: seq<string>, k: nat, at: nat, left: nat)
      returns (rest: seq<string>)
    requires Sorted(pool, LexLe) && |out| <= |pool| && out == Drawn(s, counter, pool, |out|)
    requires k < |out| && at == counter + k && left == |pool| - k
    ensures TakenAt(pool, out, k, rest, Index(s, at, left))
    decreases k
  {
    var i := Index(s, counter, |pool|);
    DrawnFirst(s, counter, pool, |out|);
    if k == 0 {
      TakenFirst(pool, i, out);
      rest := pool;
    } else {
      var later := Drawn(s, counter + 1, Without(pool, i), |out| - 1);
      WithoutSorted(pool, i);
      rest := DrawnInOrder(s, counter + 1, Without(pool, i), later, k - 1, at, left);
      TakenLater(pool, i, later, out, k, rest, Index(s, at, left));
    }
  }

  lemma {:induction false} TakenFromSorted(
      pool: seq<string>, items: seq<string>, out: seq<string>, k: nat, rest: seq<string>, draw: nat)
    requires TakenAt(pool, out, k, rest, draw) && multiset(pool) == multiset(items)
    ensures TakenAt(items, out, k, rest, draw)
  {
  }

  lemma {:induction false} SortedPool(s: Stream, counter: nat, items: seq<string>, count: nat)
      returns (pool: seq<string>, out: seq<string>)
    requires count <= |items|
    ensures Sorted(pool, LexLe) && multiset(pool) == multiset(items) && |pool| == |items|
    ensures out == Drawn(s, counter, pool, count) == SampleOf(s, counter, items, count) && |out| == count
    ensures count == |items| ==> out == ShuffleOf(s, counter, items)
  {
    LexOrder();
    SortBySorted(items, LexLe);
    pool := SortBy(items, LexLe);
    out := Drawn(s, counter, pool, count);
  }

  /** A sample takes each of its items as drawn, from what is left of the items in order. */
  lemma {:induction false} SampledInOrder(
      s: Stream, counter: nat, items: seq<string>, count: nat, k: nat) returns (out: seq<string>, rest: seq<string>)
    requires k < count <= |items|
    ensures out == SampleOf(s, counter, items, count) && |out| == count
    ensures count == |items| ==> out == ShuffleOf(s, counter, items)
    ensures TakenAt(items, out, k, rest, Index(s, counter + k, |items| - k))
  {
    var pool: seq<string>;
    pool, out := SortedPool(s, counter, items, count);
    rest := DrawnInOrder(s, counter, pool, out, k, counter + k, |items| - k);
    TakenFromSorted(pool, items, out, k, rest, Index(s, counter + k, |items| - k));
  }

  /** A shuffle does the same with all of them. */
  lemma {:induction false} ShuffledInOrder(s: Stream, counter: nat, items: seq<string>, k: nat)
      returns (out: seq<string>, rest: seq<string>)
    requires k < |items|
    ensures out == ShuffleOf(s, counter, items) && |out| == |items|
    ensures TakenAt(items, out, k, rest, Index(s, counter + k, |items| - k))
  {
    out, rest := SampledInOrder(s, counter, items, |items|, k);
  }

  lemma MapCons<S, T>(x: S, s: seq<S>, f: S -> T)
    ensures Map([x] + s, f) == [f(x)] + Map(s, f)
  {
  }

  /** Draws look at positions only, so they commute with relabelling. */
  lemma {:induction false} DrawnMap<S, T>(s: Stream, counter: nat, pool: seq<S>, f: S -> T, count: nat)
    requires count <= |pool|
    ensures Drawn(s, counter, Map(pool, f), count) == Map(Drawn(s, counter, pool, count), f)
    decreases count
  {
    if count > 0 {
      var i := Index(s, counter, |pool|);
      var rest := Without(pool, i);
      assert Without(Map(pool, f), i) == Map(rest, f);
      DrawnMap(s, counter + 1, rest, f, count - 1);
      MapCons(pool[i], Drawn(s, counter + 1, rest, count - 1), f);
    }
  }

  /**
   * The order of a shuffle is decided by whatever decides the sort: when `text` orders the items
   * as `le` does, shuffling the texts is laying out the shuffled items.
   */
  lemma ShuffleFollowsOrder<S>(s: Stream, counter: nat, items: seq<S>, text: S -> string, le: (S, S) -> bool)
    requires forall x, y :: x in items && y in items ==> le(x, y) == LexLe(text(x), text(y))
    ensures ShuffleOf(s, counter, Map(items, text)) == Map(Drawn(s, counter, SortBy(items, le), |items|), text)
  {
    SortCommutes(items, text, le, LexLe);
    DrawnMap(s, counter, SortBy(items, le), text, |items|);
  }
}
