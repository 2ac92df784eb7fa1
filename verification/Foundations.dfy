/** Finite sums, sorting and string order, shared by every component below. */

/** Sums over sequences and over the values of a map. */
module Sums {
  import opened Numbers

  /** Left-to-right sum of `f` over `s`. */
  function SumBy<T>(s: seq<T>, f: T -> real): real {
    if s == [] then 0.0 else SumBy(s[..|s| - 1], f) + f(s[|s| - 1])
  }

  /** Number of elements of `s` that satisfy `p`. */
  function CountBy<T>(s: seq<T>, p: T -> bool): (n: nat)
    ensures n <= |s|
  {
    if s == [] then 0 else CountBy(s[..|s| - 1], p) + if p(s[|s| - 1]) then 1 else 0
  }

  function Sum(s: seq<real>): real {
    if s == [] then 0.0 else Sum(s[..|s| - 1]) + s[|s| - 1]
  }

  function SumInt(s: seq<int>): int {
    if s == [] then 0 else SumInt(s[..|s| - 1]) + s[|s| - 1]
  }

  /** Sum of the values of a dictionary. */
  ghost function SumValues<K>(m: map<K, int>): int {
    if m == map[] then 0 else
      var k :| k in m;
      m[k] + SumValues(m - {k})
  }

  lemma {:induction false} SumAppend(s: seq<real>, t: seq<real>)
    ensures Sum(s + t) == Sum(s) + Sum(t)
  {
    if t == [] {
      assert s + t == s;
    } else {
      assert (s + t)[..|s + t| - 1] == s + t[..|t| - 1];
      SumAppend(s, t[..|t| - 1]);
    }
  }

  lemma {:induction false} SumByAppend<T>(s: seq<T>, t: seq<T>, f: T -> real)
    ensures SumBy(s + t, f) == SumBy(s, f) + SumBy(t, f)
  {
    if t == [] {
      assert s + t == s;
    } else {
      assert (s + t)[..|s + t| - 1] == s + t[..|t| - 1];
      SumByAppend(s, t[..|t| - 1], f);
    }
  }

  lemma SumSplit(s: seq<real>, a: nat, b: nat)
    requires a <= b <= |s|
    ensures Sum(s[..b]) == Sum(s[..a]) + Sum(s[a..b])
  {
    assert s[..b] == s[..a] + s[a..b];
    SumAppend(s[..a], s[a..b]);
  }

  lemma SumBySplit<T>(s: seq<T>, f: T -> real, a: nat, b: nat)
    requires a <= b <= |s|
    ensures SumBy(s[..b], f) == SumBy(s[..a], f) + SumBy(s[a..b], f)
  {
    assert s[..b] == s[..a] + s[a..b];
    SumByAppend(s[..a], s[a..b], f);
  }

  /** A stretch on which `f` is constant. */
  lemma {:induction false} SumByConstant<T>(s: seq<T>, f: T -> real, a: nat, b: nat, c: real)
    requires a <= b <= |s| && forall k :: a <= k < b ==> f(s[k]) == c
    ensures SumBy(s[a..b], f) == Times(b - a, c)
    decreases b
  {
    if a < b {
      SumByConstant(s, f, a, b - 1, c);
      assert s[a..b][..b - a - 1] == s[a..b - 1];
    }
  }

  lemma {:induction false} CountByAppend<T>(s: seq<T>, t: seq<T>, p: T -> bool)
    ensures CountBy(s + t, p) == CountBy(s, p) + CountBy(t, p)
  {
    if t == [] {
      assert s + t == s;
    } else {
      assert (s + t)[..|s + t| - 1] == s + t[..|t| - 1];
      CountByAppend(s, t[..|t| - 1], p);
    }
  }

  lemma {:induction false} CountAll<T>(s: seq<T>, f: T -> bool)
    requires forall k :: 0 <= k < |s| ==> f(s[k])
    ensures CountBy(s, f) == |s|
  {
    if s != [] {
      CountAll(s[..|s| - 1], f);
    }
  }

  /** A property that holds up to `i` and no further is had by `i` elements. */
  lemma {:induction false} CountUpTo<T>(s: seq<T>, i: nat, f: T -> bool)
    requires i <= |s| && forall k :: 0 <= k < |s| ==> (f(s[k]) <==> k < i)
    ensures CountBy(s, f) == i
  {
    if i == |s| {
      CountAll(s, f);
    } else {
      CountUpTo(s[..|s| - 1], i, f);
    }
  }

  lemma RemoveAt<T>(s: seq<T>, i: nat)
    requires i < |s|
    ensures multiset(s[..i] + s[i + 1..]) == multiset(s) - multiset{s[i]}
  {
    assert s == s[..i] + ([s[i]] + s[i + 1..]);
  }

  lemma RepeatCounts<T>(s: seq<T>, i: nat, j: nat)
    requires i < j < |s| && s[i] == s[j]
    ensures multiset(s)[s[i]] >= 2
  {
    assert s == s[..j] + [s[j]] + s[j + 1..];
    assert s[..j] == s[..i] + [s[i]] + s[i + 1..j];
  }

  lemma {:induction false} DistinctCounts<T>(s: seq<T>, x: T)
    requires forall i, j :: 0 <= i < j < |s| ==> s[i] != s[j]
    ensures multiset(s)[x] <= 1
  {
    if s != [] {
      var n := |s| - 1;
      assert s == s[..n] + [s[n]];
      DistinctCounts(s[..n], x);
      if x == s[n] {
        assert x !in multiset(s[..n]);
      }
    }
  }

  /** A rearrangement splits around the position of the other's last element. */
  lemma SplitAt<T>(a: seq<T>, b: seq<T>) returns (i: nat)
    requires a != [] && multiset(a) == multiset(b)
    ensures i < |b| && b[i] == a[|a| - 1]
    ensures b == b[..i] + [b[i]] + b[i + 1..]
    ensures multiset(a[..|a| - 1]) == multiset(b[..i] + b[i + 1..])
  {
    var n := |a| - 1;
    assert a[n] in multiset(a);
    i :| 0 <= i < |b| && b[i] == a[n];
    RemoveAt(a, n);
    RemoveAt(b, i);
    assert a[..n] + a[n + 1..] == a[..n];
  }

  lemma {:induction false} SumByPermutation<T>(a: seq<T>, b: seq<T>, f: T -> real)
    requires multiset(a) == multiset(b)
    ensures SumBy(a, f) == SumBy(b, f)
    decreases |a|
  {
    if a == [] {
      assert |multiset(b)| == 0;
    } else {
      var i := SplitAt(a, b);
      SumByPermutation(a[..|a| - 1], b[..i] + b[i + 1..], f);
      SumByAppend(b[..i], b[i + 1..], f);
      SumByAppend(b[..i], [b[i]], f);
      SumByAppend(b[..i] + [b[i]], b[i + 1..], f);
      assert [b[i]][..0] == [];
    }
  }

  lemma {:induction false} CountByPermutation<T>(a: seq<T>, b: seq<T>, p: T -> bool)
    requires multiset(a) == multiset(b)
    ensures CountBy(a, p) == CountBy(b, p)
    decreases |a|
  {
    if a == [] {
      assert |multiset(b)| == 0;
    } else {
      var i := SplitAt(a, b);
      CountByPermutation(a[..|a| - 1], b[..i] + b[i + 1..], p);
      CountByAppend(b[..i], b[i + 1..], p);
      CountByAppend(b[..i], [b[i]], p);
      CountByAppend(b[..i] + [b[i]], b[i + 1..], p);
      assert [b[i]][..0] == [];
    }
  }

  /** Pointwise order carries over to sums. */
  lemma {:induction false} SumMonotone(s: seq<real>, t: seq<real>)
    requires |s| == |t| && forall i :: 0 <= i < |s| ==> s[i] <= t[i]
    ensures Sum(s) <= Sum(t)
  {
    if s != [] {
      SumMonotone(s[..|s| - 1], t[..|t| - 1]);
    }
  }

  lemma {:induction false} SumBounds(s: seq<real>, low: real, high: real)
    requires forall i :: 0 <= i < |s| ==> low <= s[i] <= high
    ensures Times(|s|, low) <= Sum(s) <= Times(|s|, high)
  {
    if s != [] {
      SumBounds(s[..|s| - 1], low, high);
    }
  }

  /** The sum of a dictionary may be taken starting with any key. */
  lemma {:induction false} SumValuesRemove<K>(m: map<K, int>, k: K)
    requires k in m
    ensures SumValues(m) == m[k] + SumValues(m - {k})
    decreases |m|
  {
    var c :| c in m && SumValues(m) == m[c] + SumValues(m - {c});
    if c != k {
      assert k in m - {c};
      assert |m - {c}| < |m| by { assert (m - {c}).Keys < m.Keys; CardinalityMonotone((m - {c}).Keys, m.Keys); }
      SumValuesRemove(m - {c}, k);
      assert |m - {k}| < |m| by { assert (m - {k}).Keys < m.Keys; CardinalityMonotone((m - {k}).Keys, m.Keys); }
      SumValuesRemove(m - {k}, c);
      assert m - {c} - {k} == m - {k} - {c};
    }
  }

  lemma {:induction false} CardinalityMonotone<K>(s: set<K>, t: set<K>)
    requires s < t
    ensures |s| < |t|
  {
    var x :| x in t && x !in s;
    assert s <= t - {x};
    CardinalityLeq(s, t - {x});
  }

  lemma {:induction false} CardinalityLeq<K>(s: set<K>, t: set<K>)
    requires s <= t
    ensures |s| <= |t|
  {
    if s != {} {
      var x :| x in s;
      CardinalityLeq(s - {x}, t - {x});
    }
  }

  lemma SumValuesUpdate<K>(m: map<K, int>, k: K, v: int)
    ensures SumValues(m[k := v]) == SumValues(m) - (if k in m then m[k] else 0) + v
  {
    SumValuesRemove(m[k := v], k);
    assert m[k := v] - {k} == m - {k};
    if k in m {
      SumValuesRemove(m, k);
    } else {
      assert m - {k} == m;
    }
  }
}

/** Stable sorting, as the source's `sorted(..., key=...)`. */
module Sorting {

  ghost predicate TotalOrder<T(!new)>(le: (T, T) -> bool) {
    && (forall x, y :: le(x, y) || le(y, x))
    && (forall x, y, z :: le(x, y) && le(y, z) ==> le(x, z))
    && (forall x, y :: le(x, y) && le(y, x) ==> x == y)
  }

  ghost predicate Sorted<T>(s: seq<T>, le: (T, T) -> bool) {
    forall i, j :: 0 <= i < j < |s| ==> le(s[i], s[j])
  }

  function Insert<T>(x: T, s: seq<T>, le: (T, T) -> bool): (r: seq<T>)
    ensures multiset(r) == multiset(s) + multiset{x}
    ensures |r| == |s| + 1
  {
    if s == [] then [x]
    else if le(x, s[0]) then [x] + s
    else
      assert s == [s[0]] + s[1..];
      [s[0]] + Insert(x, s[1..], le)
  }

  function SortBy<T>(s: seq<T>, le: (T, T) -> bool): (r: seq<T>)
    ensures multiset(r) == multiset(s)
    ensures |r| == |s|
  {
    if s == [] then []
    else
      assert s == [s[0]] + s[1..];
      Insert(s[0], SortBy(s[1..], le), le)
  }

  lemma {:induction false} InsertSorted<T(!new)>(x: T, s: seq<T>, le: (T, T) -> bool)
    requires TotalOrder(le) && Sorted(s, le)
    ensures Sorted(Insert(x, s, le), le)
  {
    if s != [] && !le(x, s[0]) {
      InsertSorted(x, s[1..], le);
      var tail := Insert(x, s[1..], le);
      forall j | 0 <= j < |tail| ensures le(s[0], tail[j]) {
        assert tail[j] in multiset(tail);
        assert tail[j] == x || tail[j] in s[1..];
      }
    }
  }

  lemma {:induction false} SortBySorted<T(!new)>(s: seq<T>, le: (T, T) -> bool)
    requires TotalOrder(le)
    ensures Sorted(SortBy(s, le), le)
  {
    if s != [] {
      SortBySorted(s[1..], le);
      InsertSorted(s[0], SortBy(s[1..], le), le);
    }
  }

  /** A sorted arrangement is unique. */
  lemma {:induction false} SortedUnique<T(!new)>(a: seq<T>, b: seq<T>, le: (T, T) -> bool)
    requires TotalOrder(le) && Sorted(a, le) && Sorted(b, le)
    requires multiset(a) == multiset(b)
    ensures a == b
    decreases |a|
  {
    if a == [] {
      assert |multiset(b)| == 0;
    } else {
      HeadsAgree(a, b, le);
      SortedUnique(a[1..], b[1..], le);
    }
  }

  lemma HeadsAgree<T(!new)>(a: seq<T>, b: seq<T>, le: (T, T) -> bool)
    requires TotalOrder(le) && Sorted(a, le) && Sorted(b, le)
    requires a != [] && multiset(a) == multiset(b)
    ensures b != [] && a[0] == b[0] && multiset(a[1..]) == multiset(b[1..])
  {
    assert a[0] in multiset(b);
    assert b[0] in multiset(a);
    assert le(a[0], b[0]) && le(b[0], a[0]);
    TailMultiset(a);
    TailMultiset(b);
  }

  lemma TailMultiset<T>(s: seq<T>)
    requires s != []
    ensures multiset(s[1..]) == multiset(s) - multiset{s[0]}
  {
    assert s == [s[0]] + s[1..];
  }

  lemma SortByPermutation<T(!new)>(a: seq<T>, b: seq<T>, le: (T, T) -> bool)
    requires TotalOrder(le) && multiset(a) == multiset(b)
    ensures SortBy(a, le) == SortBy(b, le)
  {
    SortBySorted(a, le);
    SortBySorted(b, le);
    SortedUnique(SortBy(a, le), SortBy(b, le), le);
  }

  function Map<S, T>(s: seq<S>, f: S -> T): (r: seq<T>)
    ensures |r| == |s| && forall i :: 0 <= i < |s| ==> r[i] == f(s[i])
  {
    seq(|s|, i requires 0 <= i < |s| => f(s[i]))
  }

  /** When `f` carries one order to the other on the elements present, sorting commutes with it. */
  lemma {:induction false} InsertCommutes<S, T>(
      x: S, s: seq<S>, f: S -> T, leS: (S, S) -> bool, leT: (T, T) -> bool)
    requires forall y :: y in s ==> leS(x, y) == leT(f(x), f(y))
    ensures Map(Insert(x, s, leS), f) == Insert(f(x), Map(s, f), leT)
  {
    if s != [] {
      assert Map(s, f)[1..] == Map(s[1..], f);
      assert s[0] in s;
      if !leS(x, s[0]) {
        InsertCommutes(x, s[1..], f, leS, leT);
      }
    }
  }

  lemma {:induction false} SortCommutes<S, T>(
      s: seq<S>, f: S -> T, leS: (S, S) -> bool, leT: (T, T) -> bool)
    requires forall x, y :: x in s && y in s ==> leS(x, y) == leT(f(x), f(y))
    ensures Map(SortBy(s, leS), f) == SortBy(Map(s, f), leT)
  {
    if s != [] {
      var rest := s[1..];
      assert Map(s, f)[1..] == Map(rest, f);
      SortCommutes(rest, f, leS, leT);
      forall y | y in SortBy(rest, leS) ensures y in s {
        assert y in multiset(SortBy(rest, leS));
      }
      InsertCommutes(s[0], SortBy(rest, leS), f, leS, leT);
    }
  }
}
