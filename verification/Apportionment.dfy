/** src/enclave/scoring/allocation.py: largest-remainder apportionment to parts per million. */
module Apportionment {
  import opened Numbers
  import opened Sorting
  import opened Strings
  import opened Sums
  import opened Wrappers

  const WEIGHT_PPM_TOTAL: int := 1_000_000

  datatype ScoringError = NonPositiveTotal | ShareAboveOne

  /** A key with its exact quota of the total. */
  datatype Entry = Entry(key: string, quota: real)

  function Fraction(e: Entry): real {
    e.quota - Truncate(e.quota) as real
  }

  /** The bump order: larger fraction first, then by key. */
  predicate Before(a: Entry, b: Entry) {
    || Fraction(a) > Fraction(b)
    || (Fraction(a) == Fraction(b) && a.key != b.key && LexLe(a.key, b.key))
    || (Fraction(a) == Fraction(b) && a.key == b.key && a.quota <= b.quota)
  }

  lemma BeforeOrder()
    ensures TotalOrder(Before)
  {
    LexOrder();
  }

  function Quota(share: (string, real), total: real): Entry
    requires total > 0.0
  {
    Entry(share.0, share.1 / total * WEIGHT_PPM_TOTAL as real)
  }

  function Quotas(shares: seq<(string, real)>, total: real): (r: seq<Entry>)
    requires total > 0.0
    ensures |r| == |shares|
  {
    seq(|shares|, i requires 0 <= i < |shares| => Quota(shares[i], total))
  }

  function ShareOf(share: (string, real)): real { share.1 }

  /** The truncated quotas, a later duplicate key overriding an earlier one. */
  function Floors(exact: seq<Entry>): (m: map<string, int>)
    ensures m.Keys == set e | e in exact :: e.key
  {
    if exact == [] then map[] else
      var last := exact[|exact| - 1];
      assert exact == exact[..|exact| - 1] + [last];
      Floors(exact[..|exact| - 1])[last.key := Truncate(last.quota)]
  }

  /** `ordered[index % len(ordered)]`. */
  function Turn(ordered: seq<Entry>, index: nat): (e: Entry)
    requires ordered != []
    ensures e in ordered
    ensures index < |ordered| ==> e == ordered[index]
  {
    ordered[Modulo(index, |ordered|)]
  }

  /** One extra ppm to each of `ordered` in turn, `count` times, cycling. */
  function Bumped(m: map<string, int>, ordered: seq<Entry>, count: nat): (r: map<string, int>)
    requires count > 0 ==> ordered != []
    requires forall e :: e in ordered ==> e.key in m
    ensures r.Keys == m.Keys
  {
    if count == 0 then m else
      var b := Bumped(m, ordered, count - 1);
      var e := Turn(ordered, count - 1);
      b[e.key := b[e.key] + 1]
  }

  ghost function Remainder(exact: seq<Entry>): int {
    WEIGHT_PPM_TOTAL - SumValues(Floors(exact))
  }

  ghost function Ordered(exact: seq<Entry>): (r: seq<Entry>)
    ensures |r| == |exact|
    ensures forall e :: e in r <==> e in exact
  {
    var r := SortBy(exact, Before);
    assert forall e :: e in r <==> e in multiset(r);
    r
  }

  /** The integers that quotas come to. */
  ghost function Rounded(exact: seq<Entry>): (r: map<string, int>)
    requires exact != []
    ensures r.Keys == Floors(exact).Keys
  {
    var remainder := Remainder(exact);
    Bumped(Floors(exact), Ordered(exact), if remainder < 0 then 0 else remainder)
  }

  ghost function Apportioned(shares: seq<(string, real)>): Result<map<string, int>, ScoringError> {
    if shares == [] then Success(map[]) else
      var total := SumBy(shares, ShareOf);
      if total <= 0.0 then Failure(NonPositiveTotal)
      else Success(Rounded(Quotas(shares, total)))
  }

  method LargestRemainderPpm(shares: seq<(string, real)>)
      returns (r: Result<map<string, int>, ScoringError>)
    ensures r == Apportioned(shares)
  {
    if shares == [] {
      return Success(map[]);
    }
    var total := SumBy(shares, ShareOf);
    if total <= 0.0 {
      return Failure(NonPositiveTotal);
    }
    var exact := Quotas(shares, total);
    var floors := Floors(exact);
    var placed := SumOfValues(floors);
    var remainder := WEIGHT_PPM_TOTAL - placed;
    var ordered := SortBy(exact, Before);
    assert ordered == Ordered(exact) && forall e :: e in ordered ==> e.key in floors;
    floors := HandOut(floors, ordered, remainder);
    return Success(floors);
  }

  /** The loop that hands out the remainder. */
  method HandOut(m: map<string, int>, ordered: seq<Entry>, remainder: int)
      returns (floors: map<string, int>)
    requires ordered != [] && forall e :: e in ordered ==> e.key in m
    ensures floors == Bumped(m, ordered, if remainder < 0 then 0 else remainder)
  {
    floors := m;
    var index := 0;
    while index < remainder
      invariant 0 <= index <= if remainder < 0 then 0 else remainder
      invariant floors == Bumped(m, ordered, index)
    {
      var key := Turn(ordered, index).key;
      floors := floors[key := floors[key] + 1];
      index := index + 1;
    }
  }

  method SumOfValues(m: map<string, int>) returns (total: int)
    ensures total == SumValues(m)
  {
    total := 0;
    var left := m;
    while left != map[]
      invariant total + SumValues(left) == SumValues(m)
      decreases |left|
    {
      var k :| k in left;
      SumValuesRemove(left, k);
      total := total + left[k];
      assert (left - {k}).Keys == left.Keys - {k};
      left := left - {k};
    }
  }

  // ----- The total -----

  lemma {:induction false} BumpedTotal(m: map<string, int>, ordered: seq<Entry>, count: nat)
    requires count > 0 ==> ordered != []
    requires forall e :: e in ordered ==> e.key in m
    ensures SumValues(Bumped(m, ordered, count)) == SumValues(m) + count
  {
    if count > 0 {
      BumpedTotal(m, ordered, count - 1);
      var b := Bumped(m, ordered, count - 1);
      var k := Turn(ordered, count - 1).key;
      SumValuesUpdate(b, k, b[k] + 1);
    }
  }

  /** Whatever the quotas, the ppm total exactly one million unless the floors already exceed it. */
  lemma RoundedTotal(exact: seq<Entry>)
    requires exact != []
    ensures SumValues(Rounded(exact)) ==
      if Remainder(exact) >= 0 then WEIGHT_PPM_TOTAL else SumValues(Floors(exact))
  {
    var remainder := Remainder(exact);
    BumpedTotal(Floors(exact), Ordered(exact), if remainder < 0 then 0 else remainder);
  }

  ghost predicate DistinctKeys(exact: seq<Entry>) {
    forall i, j :: 0 <= i < j < |exact| ==> exact[i].key != exact[j].key
  }

  function QuotaOf(e: Entry): real { e.quota }

  /** Quotas as exact arithmetic produces them. */
  ghost predicate ExactQuotas(exact: seq<Entry>) {
    && exact != [] && DistinctKeys(exact)
    && (forall e :: e in exact ==> e.quota >= 0.0)
    && SumBy(exact, QuotaOf) == WEIGHT_PPM_TOTAL as real
  }

  lemma {:induction false} FloorsAt(exact: seq<Entry>)
    requires DistinctKeys(exact)
    ensures forall e :: e in exact ==> Floors(exact)[e.key] == Truncate(e.quota)
  {
    if exact != [] {
      var init := exact[..|exact| - 1];
      FloorsAt(init);
      assert exact == init + [exact[|exact| - 1]];
    }
  }

  /** With distinct keys the floors total what the entries truncate to. */
  lemma {:induction false} FloorsTotal(exact: seq<Entry>)
    requires DistinctKeys(exact)
    ensures SumValues(Floors(exact)) as real
         == SumBy(exact, QuotaOf) - SumBy(exact, Fraction)
  {
    if exact != [] {
      var init := exact[..|exact| - 1];
      var last := exact[|exact| - 1];
      FloorsTotal(init);
      assert last.key !in Floors(init);
      SumValuesUpdate(Floors(init), last.key, Truncate(last.quota));
    }
  }

  lemma {:induction false} FractionBounds(entries: seq<Entry>)
    requires forall i :: 0 <= i < |entries| ==> entries[i].quota >= 0.0
    ensures 0.0 <= SumBy(entries, Fraction) <= |entries| as real
    ensures entries != [] ==> SumBy(entries, Fraction) < |entries| as real
  {
    if entries != [] {
      FractionBounds(entries[..|entries| - 1]);
      FractionWithin(entries[|entries| - 1]);
    }
  }

  lemma FractionWithin(e: Entry)
    requires e.quota >= 0.0
    ensures 0.0 <= Fraction(e) < 1.0
  {
  }

  /** `computed` is what rounding to within `delta` may have made of `exact`. */
  ghost predicate RoundingOf(exact: seq<Entry>, computed: seq<Entry>, delta: real) {
    && |computed| == |exact| && DistinctKeys(computed)
    && forall i :: 0 <= i < |exact| ==>
      computed[i].quota >= 0.0 && Abs(computed[i].quota - exact[i].quota) <= delta
  }

  /**
   * Quotas computed within `delta` of exact ones, with n times delta below one ppm, still leave a
   * remainder of at most one per entry and still total exactly one million.
   */
  lemma RemainderUnderRounding(exact: seq<Entry>, computed: seq<Entry>, delta: real)
    requires ExactQuotas(exact) && RoundingOf(exact, computed, delta)
    requires Times(|exact|, delta) < 1.0
    ensures 0 <= Remainder(computed) <= |computed|
    ensures SumValues(Rounded(computed)) == WEIGHT_PPM_TOTAL
  {
    FloorsTotal(computed);
    RoundedFractions(exact, computed, delta);
    QuotaSumClose(exact, computed, delta);
    WholeBetween(Remainder(computed), SumBy(computed, QuotaOf), SumBy(computed, Fraction), |computed|);
    RoundedTotal(computed);
  }

  lemma RoundedFractions(exact: seq<Entry>, computed: seq<Entry>, delta: real)
    requires RoundingOf(exact, computed, delta)
    ensures 0.0 <= SumBy(computed, Fraction) <= |computed| as real
  {
    FractionBounds(computed);
  }

  lemma WholeBetween(remainder: int, quotas: real, fractions: real, n: nat)
    requires remainder as real == WEIGHT_PPM_TOTAL as real - quotas + fractions
    requires -1.0 < quotas - WEIGHT_PPM_TOTAL as real < 1.0 && 0.0 <= fractions <= n as real
    ensures 0 <= remainder <= n
  {
    assert -1.0 < remainder as real < n as real + 1.0;
  }

  lemma {:induction false} QuotaSumClose(exact: seq<Entry>, computed: seq<Entry>, delta: real)
    requires |computed| == |exact|
    requires forall i :: 0 <= i < |exact| ==> Abs(computed[i].quota - exact[i].quota) <= delta
    ensures Abs(SumBy(computed, QuotaOf) - SumBy(exact, QuotaOf)) <= Times(|exact|, delta)
  {
    if exact != [] {
      QuotaSumClose(exact[..|exact| - 1], computed[..|exact| - 1], delta);
    }
  }

  // ----- Who gets the extra ppm -----

  lemma {:induction false} BumpedOnce(m: map<string, int>, ordered: seq<Entry>, count: nat, j: nat)
    requires DistinctKeys(ordered) && count <= |ordered| && j < |ordered|
    requires forall e :: e in ordered ==> e.key in m
    ensures ordered[j] in ordered
    ensures Bumped(m, ordered, count)[ordered[j].key]
         == m[ordered[j].key] + if j < count then 1 else 0
  {
    if count > 0 {
      BumpedOnce(m, ordered, count - 1, j);
      assert Turn(ordered, count - 1) == ordered[count - 1];
    }
  }

  lemma OrderedDistinct(exact: seq<Entry>)
    requires DistinctKeys(exact)
    ensures DistinctKeys(Ordered(exact))
  {
    var ordered := Ordered(exact);
    forall i, j | 0 <= i < j < |ordered| ensures ordered[i].key != ordered[j].key {
      if ordered[i].key == ordered[j].key {
        var a, b := ordered[i], ordered[j];
        assert a in exact && b in exact;
        assert a == b;
        RepeatCounts(ordered, i, j);
        assert multiset(exact)[a] >= 2;
        TwiceInSequence(exact, a);
      }
    }
  }

  lemma TwiceInSequence<T>(s: seq<T>, x: T)
    requires multiset(s)[x] >= 2
    ensures exists i, j :: 0 <= i < j < |s| && s[i] == x && s[j] == x
  {
    assert x in multiset(s);
    var j :| 0 <= j < |s| && s[j] == x;
    RemoveAt(s, j);
    var rest := s[..j] + s[j + 1..];
    assert x in multiset(rest);
    var k :| 0 <= k < |rest| && rest[k] == x;
    if k < j {
      assert s[k] == x && s[j] == x;
    } else {
      assert s[j] == x && s[k + 1] == x;
    }
  }

  lemma ExactFractions(exact: seq<Entry>)
    requires ExactQuotas(exact)
    ensures 0.0 <= SumBy(exact, Fraction) < |exact| as real
  {
    forall i | 0 <= i < |exact| ensures exact[i].quota >= 0.0 {
      assert exact[i] in exact;
    }
    FractionBounds(exact);
  }

  /** Quotas that leave a remainder of at most one ppm per entry: exact ones, and computed ones close by. */
  ghost predicate Workable(quotas: seq<Entry>) {
    && quotas != [] && DistinctKeys(quotas)
    && (forall e :: e in quotas ==> e.quota >= 0.0)
    && 0 <= Remainder(quotas) <= |quotas|
  }

  /** The first `Remainder` entries of the order, and only they, get one more ppm than their floor. */
  lemma ExtraPpm(quotas: seq<Entry>)
    requires Workable(quotas)
    ensures Sorted(Ordered(quotas), Before) && DistinctKeys(Ordered(quotas))
    ensures forall j :: 0 <= j < |quotas| ==> var e := Ordered(quotas)[j];
      && e in quotas
      && Rounded(quotas)[e.key] == Truncate(e.quota) + if j < Remainder(quotas) then 1 else 0
  {
    BeforeOrder();
    SortBySorted(quotas, Before);
    OrderedDistinct(quotas);
    FloorsAt(quotas);
    var ordered := Ordered(quotas);
    forall j | 0 <= j < |quotas|
      ensures var e := ordered[j];
        && e in quotas
        && Rounded(quotas)[e.key] == Truncate(e.quota) + if j < Remainder(quotas) then 1 else 0
    {
      assert ordered[j] in quotas;
      BumpedOnce(Floors(quotas), ordered, Remainder(quotas), j);
    }
  }

  /** Exact quotas leave less than one ppm per entry: what their fractions add up to. */
  lemma ExactRemainder(exact: seq<Entry>)
    requires ExactQuotas(exact)
    ensures Workable(exact) && Remainder(exact) < |exact|
    ensures Remainder(exact) as real == SumBy(Ordered(exact), Fraction)
  {
    FloorsTotal(exact);
    ExactFractions(exact);
    SumByPermutation(Ordered(exact), exact, Fraction);
  }

  lemma {:induction false} ZeroFractions(entries: seq<Entry>)
    requires forall e :: e in entries ==> Fraction(e) == 0.0
    ensures SumBy(entries, Fraction) == 0.0
  {
    if entries != [] {
      ZeroFractions(entries[..|entries| - 1]);
      assert entries[|entries| - 1] in entries;
    }
  }

  /** In the bump order fractions never grow. */
  lemma FractionsFall(ordered: seq<Entry>, i: nat, j: nat)
    requires Sorted(ordered, Before) && i <= j < |ordered|
    ensures Fraction(ordered[i]) >= Fraction(ordered[j])
  {
    if i < j {
      assert Before(ordered[i], ordered[j]);
    }
  }

  /** Past an entry with no fraction, the order holds no fractions. */
  lemma FractionsEnd(ordered: seq<Entry>, j: nat)
    requires Sorted(ordered, Before) && j < |ordered| && Fraction(ordered[j]) <= 0.0
    requires forall i :: 0 <= i < |ordered| ==> ordered[i].quota >= 0.0
    ensures SumBy(ordered[j..], Fraction) == 0.0
  {
    var tail := ordered[j..];
    forall e | e in tail ensures Fraction(e) == 0.0 {
      var i :| 0 <= i < |tail| && tail[i] == e;
      FractionsFall(ordered, j, j + i);
      assert ordered[j + i].quota >= 0.0;
    }
    ZeroFractions(tail);
  }

  /** An entry whose quota is whole never gets an extra ppm. */
  lemma ExtraNeedsFraction(exact: seq<Entry>, j: nat)
    requires ExactQuotas(exact) && j < Remainder(exact)
    ensures j < |exact| && Fraction(Ordered(exact)[j]) > 0.0
  {
    ExactRemainder(exact);
    ExtraPpm(exact);
    OrderedQuotas(exact);
    ExtraFraction(Ordered(exact), Remainder(exact), j);
  }

  lemma OrderedQuotas(exact: seq<Entry>)
    requires ExactQuotas(exact)
    ensures forall i :: 0 <= i < |Ordered(exact)| ==> Ordered(exact)[i].quota >= 0.0
  {
    forall i | 0 <= i < |Ordered(exact)| ensures Ordered(exact)[i].quota >= 0.0 {
      assert Ordered(exact)[i] in exact;
    }
  }

  /** As many fractions as there are whole ppm to hand out: so many entries have one. */
  lemma ExtraFraction(ordered: seq<Entry>, remainder: int, j: nat)
    requires Sorted(ordered, Before) && j < remainder < |ordered|
    requires remainder as real == SumBy(ordered, Fraction)
    requires forall i :: 0 <= i < |ordered| ==> ordered[i].quota >= 0.0
    ensures Fraction(ordered[j]) > 0.0
  {
    if Fraction(ordered[j]) <= 0.0 {
      FractionsEnd(ordered, j);
      HeadFractions(ordered, j);
    }
  }

  lemma HeadFractions(ordered: seq<Entry>, j: nat)
    requires j < |ordered| && forall i :: 0 <= i < |ordered| ==> ordered[i].quota >= 0.0
    ensures SumBy(ordered, Fraction) <= j as real + SumBy(ordered[j..], Fraction)
  {
    FractionBounds(ordered[..j]);
    assert ordered == ordered[..j] + ordered[j..];
    SumByAppend(ordered[..j], ordered[j..], Fraction);
  }

  /** Position of an entry in the bump order. */
  lemma PositionOf(quotas: seq<Entry>, e: Entry) returns (j: nat)
    requires Workable(quotas) && e in quotas
    ensures j < |quotas| && Ordered(quotas)[j] == e
    ensures e.key in Rounded(quotas)
    ensures Rounded(quotas)[e.key] == Truncate(e.quota) + if j < Remainder(quotas) then 1 else 0
  {
    ExtraPpm(quotas);
    assert e in Ordered(quotas);
    j :| 0 <= j < |quotas| && Ordered(quotas)[j] == e;
  }

  /** What goes before `e` when ppm are handed out: a larger fraction, or the same and an earlier key. */
  function Precedes(e: Entry): Entry -> bool {
    (f: Entry) =>
      var ours, theirs := e.quota - e.quota.Floor as real, f.quota - f.quota.Floor as real;
      f.key != e.key && (theirs > ours || (theirs == ours && LexLe(f.key, e.key)))
  }

  lemma {:induction false} PrecedesInOrder(ordered: seq<Entry>, i: nat, k: nat)
    requires Sorted(ordered, Before) && DistinctKeys(ordered) && i < |ordered| && k < |ordered|
    requires ordered[i].quota >= 0.0 && ordered[k].quota >= 0.0
    ensures Precedes(ordered[i])(ordered[k]) <==> k < i
  {
    var e, f := ordered[i], ordered[k];
    LexTotal(e.key, f.key);
    if k < i {
      assert Before(f, e);
    } else if i < k {
      assert Before(e, f);
    }
  }

  lemma {:induction false} PlaceCounts(quotas: seq<Entry>, j: nat)
    requires Workable(quotas) && j < |quotas|
    ensures CountBy(quotas, Precedes(Ordered(quotas)[j])) == j
  {
    var ordered := Ordered(quotas);
    var f := Precedes(ordered[j]);
    ExtraPpm(quotas);
    forall k | 0 <= k < |ordered| ensures f(ordered[k]) <==> k < j {
      assert ordered[k] in quotas && ordered[j] in quotas;
      PrecedesInOrder(ordered, j, k);
    }
    CountUpTo(ordered, j, f);
    CountByPermutation(ordered, quotas, f);
  }

  /**
   * Who gets the extra ppm, said of the quotas alone: a key gets one above its floor exactly when fewer
   * entries precede it than there are ppm left. Of two equal fractions the smaller key goes first.
   */
  lemma {:induction false} ExtraByFraction(quotas: seq<Entry>, e: Entry)
    requires Workable(quotas) && e in quotas
    ensures e.key in Rounded(quotas)
    ensures Rounded(quotas)[e.key]
      == e.quota.Floor + if CountBy(quotas, Precedes(e)) < WEIGHT_PPM_TOTAL - SumValues(Floors(quotas)) then 1 else 0
  {
    var j := PositionOf(quotas, e);
    PlaceCounts(quotas, j);
  }

  /** Of two equal fractions, the smaller key is served first. */
  lemma {:induction false} SmallerKeyFirst(quotas: seq<Entry>, e: Entry, f: Entry)
    requires Workable(quotas) && e in quotas && f in quotas && e.key != f.key
    requires e.quota - e.quota.Floor as real == f.quota - f.quota.Floor as real && LexLe(e.key, f.key)
    ensures e.key in Rounded(quotas) && f.key in Rounded(quotas)
    ensures Rounded(quotas)[f.key] > f.quota.Floor ==> Rounded(quotas)[e.key] > e.quota.Floor
  {
    var i := PositionOf(quotas, e);
    var j := PositionOf(quotas, f);
    ExtraPpm(quotas);
    PrecedesInOrder(Ordered(quotas), j, i);
  }

  /** Quota rule: every key gets the floor or the ceiling of its exact quota. */
  lemma QuotaRule(exact: seq<Entry>, e: Entry)
    requires ExactQuotas(exact) && e in exact
    ensures e.key in Rounded(exact)
    ensures Rounded(exact)[e.key] == e.quota.Floor || Rounded(exact)[e.key] == Ceiling(e.quota)
    ensures e.quota - 1.0 < Rounded(exact)[e.key] as real < e.quota + 1.0
  {
    ExactRemainder(exact);
    var j := PositionOf(exact, e);
    if j < Remainder(exact) {
      ExtraNeedsFraction(exact, j);
    }
  }

  /** A larger quota never gets fewer ppm; equal quotas get equal ppm up to one. */
  lemma QuotaMonotone(quotas: seq<Entry>, e: Entry, f: Entry)
    requires Workable(quotas) && e in quotas && f in quotas
    requires e.quota >= f.quota
    ensures e.key in Rounded(quotas) && f.key in Rounded(quotas)
    ensures e.quota > f.quota ==> Rounded(quotas)[e.key] >= Rounded(quotas)[f.key]
    ensures e.quota == f.quota ==> -1 <= Rounded(quotas)[e.key] - Rounded(quotas)[f.key] <= 1
  {
    var i := PositionOf(quotas, e);
    var j := PositionOf(quotas, f);
    ExtraPpm(quotas);
    if e.quota > f.quota && Truncate(e.quota) == Truncate(f.quota) {
      assert Fraction(e) > Fraction(f);
      if j < i {
        assert Before(Ordered(quotas)[j], Ordered(quotas)[i]);
      }
    }
  }

  lemma RoundedWorkable(exact: seq<Entry>, computed: seq<Entry>, delta: real)
    requires ExactQuotas(exact) && RoundingOf(exact, computed, delta)
    requires Times(|exact|, delta) < 1.0
    ensures Workable(computed)
  {
    RemainderUnderRounding(exact, computed, delta);
  }

  lemma WithinOne(quotas: seq<Entry>, e: Entry)
    requires Workable(quotas) && e in quotas
    ensures e.key in Rounded(quotas)
    ensures e.quota - 1.0 < Rounded(quotas)[e.key] as real <= e.quota + 1.0
  {
    var j := PositionOf(quotas, e);
  }

  /**
   * Fair under rounding too: every entry is within one ppm and `delta` of its exact quota, a larger
   * computed quota never gets fewer ppm, and so neither does one that is larger by twice `delta`.
   */
  lemma FairUnderRounding(exact: seq<Entry>, computed: seq<Entry>, delta: real, i: nat, j: nat)
    requires ExactQuotas(exact) && RoundingOf(exact, computed, delta)
    requires Times(|exact|, delta) < 1.0 && i < |exact| && j < |exact|
    ensures var k, l := computed[i].key, computed[j].key;
      && k in Rounded(computed) && l in Rounded(computed)
      && exact[i].quota - delta - 1.0 < Rounded(computed)[k] as real <= exact[i].quota + delta + 1.0
      && (computed[i].quota > computed[j].quota ==> Rounded(computed)[k] >= Rounded(computed)[l])
      && (computed[i].quota == computed[j].quota ==> -1 <= Rounded(computed)[k] - Rounded(computed)[l] <= 1)
      && (exact[i].quota > exact[j].quota + 2.0 * delta ==> Rounded(computed)[k] >= Rounded(computed)[l])
  {
    RoundedWorkable(exact, computed, delta);
    assert computed[i] in computed && computed[j] in computed;
    WithinOne(computed, computed[i]);
    WithinOne(computed, computed[j]);
    if computed[i].quota >= computed[j].quota {
      QuotaMonotone(computed, computed[i], computed[j]);
    }
  }

  /** Quotas that are already whole are left alone. */
  lemma WholeQuotasFixed(exact: seq<Entry>, e: Entry, n: int)
    requires ExactQuotas(exact) && e in exact && e.quota == n as real
    ensures e.key in Rounded(exact) && Rounded(exact)[e.key] == n
  {
    QuotaRule(exact, e);
  }

  /** The result does not depend on the order of the input. */
  lemma RoundedOrderIndependent(a: seq<Entry>, b: seq<Entry>)
    requires a != [] && b != [] && DistinctKeys(a) && DistinctKeys(b)
    requires multiset(a) == multiset(b)
    ensures Rounded(a) == Rounded(b)
  {
    BeforeOrder();
    SortByPermutation(a, b, Before);
    FloorsPermuted(a, b);
  }

  lemma FloorsPermuted(a: seq<Entry>, b: seq<Entry>)
    requires DistinctKeys(a) && DistinctKeys(b) && multiset(a) == multiset(b)
    ensures Floors(a) == Floors(b)
  {
    forall e ensures e in a <==> e in b {
      assert e in a <==> e in multiset(a);
      assert e in b <==> e in multiset(b);
    }
    FloorsWithin(a, b);
    FloorsWithin(b, a);
  }

  lemma FloorsWithin(a: seq<Entry>, b: seq<Entry>)
    requires DistinctKeys(a) && DistinctKeys(b) && forall e :: e in a ==> e in b
    ensures forall k :: k in Floors(a) ==> k in Floors(b) && Floors(a)[k] == Floors(b)[k]
  {
    FloorsAt(a);
    FloorsAt(b);
    forall k | k in Floors(a) ensures k in Floors(b) && Floors(a)[k] == Floors(b)[k] {
      var e :| e in a && e.key == k;
      assert e in b;
    }
  }

  // ----- Least total deviation -----

  /** Total distance of an integer vector from the quotas. */
  ghost function Deviation(exact: seq<Entry>, v: map<string, int>): real
    requires forall e :: e in exact ==> e.key in v
  {
    if exact == [] then 0.0 else
      var last := exact[|exact| - 1];
      assert last in exact;
      Deviation(exact[..|exact| - 1], v) + Abs(v[last.key] as real - last.quota)
  }

  ghost function Placed(exact: seq<Entry>, v: map<string, int>): int
    requires forall e :: e in exact ==> e.key in v
  {
    if exact == [] then 0 else
      var last := exact[|exact| - 1];
      assert last in exact;
      Placed(exact[..|exact| - 1], v) + v[last.key]
  }

  ghost predicate HasKeys(v: map<string, int>, exact: seq<Entry>) {
    forall e :: e in exact ==> e.key in v
  }

  /** `v` has a value for each key of `exact` and for nothing else. */
  ghost predicate KeyedBy(v: map<string, int>, exact: seq<Entry>) {
    && HasKeys(v, exact)
    && (forall k :: k in v ==> exists e :: e in exact && e.key == k)
  }

  lemma {:induction false} PlacedIsSum(exact: seq<Entry>, v: map<string, int>)
    requires DistinctKeys(exact) && KeyedBy(v, exact)
    ensures Placed(exact, v) == SumValues(v)
  {
    if exact == [] {
      assert v == map[];
    } else {
      var init, last := exact[..|exact| - 1], exact[|exact| - 1];
      var rest := v - {last.key};
      KeysWithout(exact, v);
      PlacedIsSum(init, rest);
      PlacedAgrees(init, v, rest);
      SumValuesRemove(v, last.key);
    }
  }

  lemma KeysWithout(exact: seq<Entry>, v: map<string, int>)
    requires exact != [] && DistinctKeys(exact) && KeyedBy(v, exact)
    ensures var n := |exact| - 1;
            var rest := v - {exact[n].key};
      && exact[n].key in v && KeyedBy(rest, exact[..n])
      && forall e :: e in exact[..n] ==> e.key in v && e.key in rest && v[e.key] == rest[e.key]
  {
    var n := |exact| - 1;
    var init, last := exact[..n], exact[n];
    assert last in exact;
    forall e | e in init ensures e.key != last.key && e.key in v {
      var i :| 0 <= i < n && init[i] == e;
      assert exact[i] == e && e in exact;
    }
    forall k | k in v && k != last.key ensures exists e :: e in init && e.key == k {
      var e :| e in exact && e.key == k;
      var i :| 0 <= i < |exact| && exact[i] == e;
      assert init[i] == e;
    }
  }

  lemma {:induction false} PlacedAgrees(exact: seq<Entry>, v: map<string, int>, w: map<string, int>)
    requires forall e :: e in exact ==> e.key in v && e.key in w && v[e.key] == w[e.key]
    ensures Placed(exact, v) == Placed(exact, w)
  {
    if exact != [] {
      assert exact[|exact| - 1] in exact;
      PlacedAgrees(exact[..|exact| - 1], v, w);
    }
  }

  lemma FloorStep(k: real, f: real, p: real)
    requires 0.0 <= f <= 1.0
    requires (k >= 1.0 && p >= f) || (k == 0.0 && p == 0.0) || (k <= -1.0 && p >= k)
    ensures Abs(k - f) - f >= k - 2.0 * p
  {
  }

  lemma CeilingStep(k: real, g: real, p: real)
    requires 0.0 <= g <= 1.0
    requires (k >= 1.0 && p >= 0.0) || (k == 0.0 && p == 0.0) || (k <= -1.0 && p - k >= g)
    ensures Abs(k + g) - g >= k - 2.0 * p
  {
  }

  lemma AtLeastOnce(t: real, x: real, p: real)
    requires t >= 0.0 && x >= 1.0 && p == t * x
    ensures p >= t
  {
    ScaleLe(t, 1.0, x);
  }

  lemma TimesZero(t: real, x: real, p: real)
    requires x == 0.0 && p == t * x
    ensures p == 0.0
  {
  }

  lemma TimesNegative(t: real, x: real, p: real)
    requires 0.0 <= t <= 1.0 && x <= 0.0 && p == t * x
    ensures p >= x
  {
    ScaleLe(-x, t, 1.0);
  }

  lemma RestTimesNegative(t: real, x: real, p: real)
    requires 0.0 <= t <= 1.0 && x <= -1.0 && p == t * x
    ensures p - x >= 1.0 - t
  {
    ScaleLe(1.0 - t, 1.0, -x);
  }

  lemma NearFloor(k: int, f: real, t: real, p: real)
    requires 0.0 <= f <= t <= 1.0 && p == t * k as real
    ensures Abs(k as real - f) - f >= k as real - 2.0 * p
  {
    if k >= 1 {
      AtLeastOnce(t, k as real, p);
    } else if k == 0 {
      TimesZero(t, k as real, p);
    } else {
      TimesNegative(t, k as real, p);
    }
    FloorStep(k as real, f, p);
  }

  lemma NearCeiling(k: int, g: real, t: real, p: real)
    requires 0.0 <= g <= 1.0 - t <= 1.0 && p == t * k as real
    ensures Abs(k as real + g) - g >= k as real - 2.0 * p
  {
    if k >= 1 {
      ProductNonneg(t, k as real);
    } else if k == 0 {
      TimesZero(t, k as real, p);
    } else {
      RestTimesNegative(t, k as real, p);
    }
    CeilingStep(k as real, g, p);
  }

  lemma PriceOf(t: real, price: real, k: real, back: real, p: real)
    requires price == 1.0 - 2.0 * t && back == -k && p == t * k
    ensures price * back == 2.0 * p - k
  {
  }

  /** `n` ppm at `price` each. */
  ghost function Cost(price: real, n: int): real
    decreases if n < 0 then -n else n
  {
    if n == 0 then 0.0
    else if n > 0 then Cost(price, n - 1) + price
    else Cost(price, n + 1) - price
  }

  lemma {:induction false} CostIs(price: real, n: int)
    ensures Cost(price, n) == price * n as real
    decreases if n < 0 then -n else n
  {
    if n > 0 {
      CostIs(price, n - 1);
      Spread(price, (n - 1) as real, 1.0);
    } else if n < 0 {
      CostIs(price, n + 1);
      Spread(price, (n + 1) as real, 1.0);
    }
  }

  lemma {:induction false} CostAdds(price: real, m: int, n: int)
    ensures Cost(price, m + n) == Cost(price, m) + Cost(price, n)
    decreases if n < 0 then -n else n
  {
    if n > 0 {
      CostAdds(price, m, n - 1);
      CostStep(price, m + n - 1);
    } else if n < 0 {
      CostAdds(price, m, n + 1);
      CostStep(price, m + n);
    }
  }

  lemma CostStep(price: real, n: int)
    ensures Cost(price, n + 1) == Cost(price, n) + price
  {
  }

  /**
   * At price 1-2t a ppm, a best integer near a quota is the one whose bump agrees with `t`: moving
   * away from it to `v` costs at least the price of the move.
   */
  lemma BestNear(a: int, v: int, e: Entry, t: real, price: real)
    requires e.quota >= 0.0 && 0.0 <= t <= 1.0 && price == 1.0 - 2.0 * t
    requires (a == Truncate(e.quota) && Fraction(e) <= t)
          || (a == Truncate(e.quota) + 1 && Fraction(e) >= t)
    ensures Abs(a as real - e.quota) - Abs(v as real - e.quota) <= Cost(price, a - v)
  {
    var p := t * (v - a) as real;
    CostIs(price, a - v);
    PriceOf(t, price, (v - a) as real, (a - v) as real, p);
    if a == Truncate(e.quota) && Fraction(e) <= t {
      NearFloor(v - a, Fraction(e), t, p);
    } else {
      NearCeiling(v - a, 1.0 - Fraction(e), t, p);
    }
  }

  /** Fraction at the cut: every bumped entry has at least this much, every other at most. */
  ghost function CutFraction(exact: seq<Entry>): real
    requires ExactQuotas(exact)
  {
    var r := Remainder(exact);
    ExactRemainder(exact);
    Fraction(Ordered(exact)[if r > 0 then r - 1 else 0])
  }

  lemma CutSeparates(exact: seq<Entry>, e: Entry)
    requires ExactQuotas(exact) && e in exact
    ensures 0.0 <= CutFraction(exact) <= 1.0
    ensures e.key in Rounded(exact)
    ensures var a := Rounded(exact)[e.key];
      || (a == Truncate(e.quota) && Fraction(e) <= CutFraction(exact))
      || (a == Truncate(e.quota) + 1 && Fraction(e) >= CutFraction(exact))
  {
    ExactRemainder(exact);
    ExtraPpm(exact);
    OrderedQuotas(exact);
    var ordered, r := Ordered(exact), Remainder(exact);
    var cut := if r > 0 then r - 1 else 0;
    assert ordered[cut].quota >= 0.0;
    var j := PositionOf(exact, e);
    if j <= cut {
      FractionsFall(ordered, j, cut);
    } else {
      FractionsFall(ordered, cut, j);
    }
  }

  lemma RoundedKeyed(exact: seq<Entry>)
    requires exact != []
    ensures KeyedBy(Rounded(exact), exact)
  {
    var keys := Floors(exact).Keys;
    forall e | e in exact ensures e.key in keys {
    }
    forall k | k in keys ensures exists e :: e in exact && e.key == k {
    }
  }

  /** Moving an entry from `a` to `v` costs at least the price of the move. */
  ghost predicate BestAt(e: Entry, a: int, v: int, price: real) {
    Abs(a as real - e.quota) - Abs(v as real - e.quota) <= Cost(price, a - v)
  }

  ghost predicate BestEverywhere(exact: seq<Entry>, a: map<string, int>, v: map<string, int>, price: real)
    requires HasKeys(a, exact) && HasKeys(v, exact)
  {
    forall e :: e in exact ==> BestAt(e, a[e.key], v[e.key], price)
  }

  lemma {:induction false} MovesCost(exact: seq<Entry>, a: map<string, int>, v: map<string, int>, price: real)
    requires HasKeys(a, exact) && HasKeys(v, exact) && BestEverywhere(exact, a, v, price)
    ensures Deviation(exact, a) - Deviation(exact, v) <= Cost(price, Placed(exact, a) - Placed(exact, v))
  {
    if exact != [] {
      var init, last := exact[..|exact| - 1], exact[|exact| - 1];
      assert last in exact;
      MovesCost(init, a, v, price);
      CostAdds(price, Placed(init, a) - Placed(init, v), a[last.key] - v[last.key]);
    }
  }

  /** At the price set by the cut, no integer does better than the rounded one at any entry. */
  lemma EntryBest(exact: seq<Entry>, a: int, v: int, e: Entry, t: real, price: real)
    requires ExactQuotas(exact) && e in exact && e.key in Rounded(exact)
    requires a == Rounded(exact)[e.key] && t == CutFraction(exact) && price == 1.0 - 2.0 * t
    ensures BestAt(e, a, v, price)
  {
    CutSeparates(exact, e);
    BestNear(a, v, e, t, price);
  }

  lemma RoundedBest(exact: seq<Entry>, v: map<string, int>) returns (price: real)
    requires ExactQuotas(exact) && HasKeys(v, exact) && HasKeys(Rounded(exact), exact)
    ensures BestEverywhere(exact, Rounded(exact), v, price)
  {
    var t := CutFraction(exact);
    price := 1.0 - 2.0 * t;
    var a := Rounded(exact);
    forall e | e in exact ensures BestAt(e, a[e.key], v[e.key], price) {
      EntryBest(exact, a[e.key], v[e.key], e, t, price);
    }
  }

  /** Equal totals: then the moves cost nothing, and the deviation cannot have shrunk. */
  lemma SameTotalLess(exact: seq<Entry>, a: map<string, int>, v: map<string, int>, price: real)
    requires HasKeys(a, exact) && HasKeys(v, exact) && BestEverywhere(exact, a, v, price)
    requires Placed(exact, a) == Placed(exact, v)
    ensures Deviation(exact, a) <= Deviation(exact, v)
  {
    MovesCost(exact, a, v, price);
  }

  lemma RoundedPlaced(exact: seq<Entry>)
    requires ExactQuotas(exact) && KeyedBy(Rounded(exact), exact)
    ensures Placed(exact, Rounded(exact)) == WEIGHT_PPM_TOTAL
  {
    assert 0 <= Remainder(exact) by { ExactRemainder(exact); }
    PlacedIsSum(exact, Rounded(exact));
    RoundedTotal(exact);
  }

  /** No integer vector with the same total is closer to the quotas in total deviation. */
  lemma LeastDeviation(exact: seq<Entry>, v: map<string, int>)
    requires ExactQuotas(exact) && KeyedBy(v, exact) && SumValues(v) == WEIGHT_PPM_TOTAL
    ensures KeyedBy(Rounded(exact), exact)
    ensures Deviation(exact, Rounded(exact)) <= Deviation(exact, v)
  {
    RoundedKeyed(exact);
    RoundedPlaced(exact);
    PlacedIsSum(exact, v);
    var price := RoundedBest(exact, v);
    SameTotalLess(exact, Rounded(exact), v, price);
  }

  // ----- From shares to quotas -----

  ghost predicate DistinctShares(shares: seq<(string, real)>) {
    forall i, j :: 0 <= i < j < |shares| ==> shares[i].0 != shares[j].0
  }

  /** Shares a caller hands over: distinct keys, nothing negative, something positive. */
  ghost predicate ProperShares(shares: seq<(string, real)>) {
    && DistinctShares(shares)
    && (forall s :: s in shares ==> s.1 >= 0.0)
    && SumBy(shares, ShareOf) > 0.0
  }

  lemma {:induction false} QuotaTotal(shares: seq<(string, real)>, total: real)
    requires total > 0.0
    ensures SumBy(Quotas(shares, total), QuotaOf)
         == SumBy(shares, ShareOf) / total * WEIGHT_PPM_TOTAL as real
  {
    if shares != [] {
      var init, last := shares[..|shares| - 1], shares[|shares| - 1].1;
      QuotaTotal(init, total);
      assert Quotas(shares, total)[..|shares| - 1] == Quotas(init, total);
      QuotientSum(SumBy(init, ShareOf), last, total);
    }
  }

  lemma QuotientSum(x: real, y: real, c: real)
    requires c > 0.0
    ensures (x + y) / c == x / c + y / c
  {
  }

  lemma QuotaKeys(shares: seq<(string, real)>, total: real)
    requires total > 0.0 && (forall s :: s in shares ==> s.1 >= 0.0)
    ensures forall e :: e in Quotas(shares, total) ==> e.quota >= 0.0
    ensures DistinctShares(shares) ==> DistinctKeys(Quotas(shares, total))
    ensures (set e | e in Quotas(shares, total) :: e.key) == set s | s in shares :: s.0
  {
    var exact := Quotas(shares, total);
    forall e | e in exact ensures e.quota >= 0.0 && exists s :: s in shares && s.0 == e.key {
      var i :| 0 <= i < |exact| && exact[i] == e;
      assert shares[i] in shares;
      DivideLe(0.0, shares[i].1, total);
    }
    forall s | s in shares ensures exists e :: e in exact && e.key == s.0 {
      var i :| 0 <= i < |shares| && shares[i] == s;
      assert exact[i] in exact;
    }
  }

  lemma ProperQuotas(shares: seq<(string, real)>)
    requires ProperShares(shares)
    ensures shares != []
    ensures ExactQuotas(Quotas(shares, SumBy(shares, ShareOf)))
  {
    var total := SumBy(shares, ShareOf);
    QuotaTotal(shares, total);
    SelfQuotient(total);
    QuotaKeys(shares, total);
  }

  lemma SelfQuotient(x: real)
    requires x > 0.0
    ensures x / x * WEIGHT_PPM_TOTAL as real == WEIGHT_PPM_TOTAL as real
  {
    assert x / x == 1.0;
  }

  /** Proper shares are always apportioned, one entry per key, to exactly one million. */
  lemma ProperSharesExact(shares: seq<(string, real)>)
    requires ProperShares(shares)
    ensures Apportioned(shares).Success?
    ensures Apportioned(shares).value.Keys == set s | s in shares :: s.0
    ensures SumValues(Apportioned(shares).value) == WEIGHT_PPM_TOTAL
  {
    var total := SumBy(shares, ShareOf);
    var exact := Quotas(shares, total);
    ProperQuotas(shares);
    QuotaKeys(shares, total);
    assert 0 <= Remainder(exact) by { ExactRemainder(exact); }
    RoundedTotal(exact);
  }

  /** A larger share never gets fewer ppm, and equal shares differ by at most one. */
  lemma ShareMonotone(shares: seq<(string, real)>, i: nat, j: nat)
    requires ProperShares(shares) && i < |shares| && j < |shares|
    requires shares[i].1 >= shares[j].1
    ensures Apportioned(shares).Success?
    ensures var ppm := Apportioned(shares).value;
      && shares[i].0 in ppm && shares[j].0 in ppm
      && (shares[i].1 > shares[j].1 ==> ppm[shares[i].0] >= ppm[shares[j].0])
      && (shares[i].1 == shares[j].1 ==> -1 <= ppm[shares[i].0] - ppm[shares[j].0] <= 1)
  {
    ProperQuotas(shares);
    var total := SumBy(shares, ShareOf);
    var exact := Quotas(shares, total);
    assert exact[i] in exact && exact[j] in exact;
    DivideLe(shares[j].1, shares[i].1, total);
    if shares[i].1 > shares[j].1 {
      DivideLt(shares[j].1, shares[i].1, total);
    }
    ExactRemainder(exact);
    QuotaMonotone(exact, exact[i], exact[j]);
  }

  lemma {:induction false} WholeShare(shares: seq<(string, real)>, i: nat, n: int)
    requires ProperShares(shares) && SumBy(shares, ShareOf) == WEIGHT_PPM_TOTAL as real
    requires i < |shares| && shares[i].1 == n as real
    ensures Apportioned(shares).Success?
    ensures shares[i].0 in Apportioned(shares).value && Apportioned(shares).value[shares[i].0] == n
  {
    ProperQuotas(shares);
    var exact := Quotas(shares, WEIGHT_PPM_TOTAL as real);
    assert exact[i] in exact;
    assert exact[i].quota == n as real;
    WholeQuotasFixed(exact, exact[i], n);
  }

  ghost predicate Whole(shares: seq<(string, real)>, v: map<string, int>) {
    && (forall i :: 0 <= i < |shares| ==> shares[i].0 in v && shares[i].1 == v[shares[i].0] as real)
    && (forall k :: k in v ==> exists i :: 0 <= i < |shares| && shares[i].0 == k)
  }

  lemma {:induction false} WholeKeys(shares: seq<(string, real)>, v: map<string, int>)
    requires Whole(shares, v)
    ensures v.Keys == set s | s in shares :: s.0
  {
    forall k | k in v ensures exists s :: s in shares && s.0 == k {
      var i :| 0 <= i < |shares| && shares[i].0 == k;
      assert shares[i] in shares;
    }
  }

  lemma SameEntries(a: map<string, int>, b: map<string, int>)
    requires a.Keys == b.Keys && forall k :: k in b ==> a[k] == b[k]
    ensures a == b
  {
  }

  /** Integer shares that already total a million come back as they are. */
  lemma {:induction false} WholeSharesFixed(shares: seq<(string, real)>, v: map<string, int>)
    requires ProperShares(shares) && SumBy(shares, ShareOf) == WEIGHT_PPM_TOTAL as real && Whole(shares, v)
    ensures Apportioned(shares) == Success(v)
  {
    ProperSharesExact(shares);
    WholeKeys(shares, v);
    var ppm := Apportioned(shares).value;
    forall k | k in v ensures ppm[k] == v[k] {
      var i :| 0 <= i < |shares| && shares[i].0 == k;
      WholeShare(shares, i, v[k]);
    }
    SameEntries(ppm, v);
  }

  /** Every share of a million gets at least its floor. */
  lemma ShareFloor(shares: seq<(string, real)>, i: nat)
    requires ProperShares(shares) && i < |shares|
    ensures Apportioned(shares).Success? && shares[i].0 in Apportioned(shares).value
    ensures Apportioned(shares).value[shares[i].0]
         >= Truncate(Quota(shares[i], SumBy(shares, ShareOf)).quota)
    ensures Apportioned(shares).value[shares[i].0] >= 0
  {
    ProperQuotas(shares);
    var total := SumBy(shares, ShareOf);
    var e := Quotas(shares, total)[i];
    assert e in Quotas(shares, total);
    ExactRemainder(Quotas(shares, total));
    var j := PositionOf(Quotas(shares, total), e);
  }

  /** Every share gets its part of a million to within one ppm. */
  lemma {:induction false} ShareNear(shares: seq<(string, real)>, i: nat)
    requires ProperShares(shares) && i < |shares|
    ensures Apportioned(shares).Success? && shares[i].0 in Apportioned(shares).value
    ensures var quota := shares[i].1 / SumBy(shares, ShareOf) * 1_000_000.0;
      quota - 1.0 < Apportioned(shares).value[shares[i].0] as real < quota + 1.0
  {
    ProperQuotas(shares);
    var exact := Quotas(shares, SumBy(shares, ShareOf));
    assert exact[i] in exact;
    QuotaRule(exact, exact[i]);
  }

  /** Rearranging the shares changes nothing. */
  lemma ShareOrderIndependent(a: seq<(string, real)>, b: seq<(string, real)>)
    requires DistinctShares(a) && DistinctShares(b) && multiset(a) == multiset(b)
    ensures Apportioned(a) == Apportioned(b)
  {
    SumByPermutation(a, b, ShareOf);
    if a == [] || b == [] {
      assert |multiset(a)| == |multiset(b)|;
    } else if SumBy(a, ShareOf) > 0.0 {
      var total := SumBy(a, ShareOf);
      QuotasPermuted(a, b, total);
      RoundedOrderIndependent(Quotas(a, total), Quotas(b, total));
    }
  }

  lemma {:induction false} QuotasPermuted(a: seq<(string, real)>, b: seq<(string, real)>, total: real)
    requires total > 0.0 && multiset(a) == multiset(b)
    ensures multiset(Quotas(a, total)) == multiset(Quotas(b, total))
    decreases |a|
  {
    if a == [] {
      assert |multiset(b)| == 0;
    } else {
      var n := |a| - 1;
      var i := SplitAt(a, b);
      var rest := b[..i] + b[i + 1..];
      QuotasPermuted(a[..n], rest, total);
      var qa, qb := Quotas(a, total), Quotas(b, total);
      assert qa == Quotas(a[..n], total) + [qa[n]];
      assert Quotas(rest, total) == qb[..i] + qb[i + 1..];
      RemoveAt(qb, i);
    }
  }
}
