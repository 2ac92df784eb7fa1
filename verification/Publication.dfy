/**
 * From an allocation to the weights on chain: the reserved share and the uid vector of
 * src/enclave/scoring/allocation.py, `publish` of src/enclave/validator/round.py, and the chain's
 * own check in src/enclave/chain/client.py.
 */
module Publication {
  import opened Apportionment
  import opened Dicts
  import opened Numbers
  import opened Ranking
  import opened Sorting
  import opened Strings
  import opened Sums
  import opened Wrappers

  const TOTAL: real := WEIGHT_PPM_TOTAL as real

  // ----- The reserved share -----

  /** `dict.get(id, 0)`. */
  function Get(m: map<string, real>, id: string): real {
    if id in m then m[id] else 0.0
  }

  /** What a weight of ppm keeps of the pool. */
  function Earned(weight: int, keep: real): real {
    weight as real / TOTAL * keep
  }

  function Kept(ppm: map<string, int>, keep: real): map<string, real> {
    map id | id in ppm :: Earned(ppm[id], keep)
  }

  /** Everyone's ppm scaled down by what is kept, plus the reserved share on its hotkey. */
  function Merged(ppm: map<string, int>, hotkey: string, share: real): map<string, real> {
    var kept := Kept(ppm, 1.0 - share);
    kept[hotkey := Get(kept, hotkey) + share]
  }

  ghost function Reserved(a: Allocation, hotkey: string, share: real): Result<Allocation, ScoringError> {
    if hotkey == "" || share <= 0.0 then Success(a)
    else if share > 1.0 then Failure(ShareAboveOne)
    else if share >= 1.0 || a.ppm == map[] then
      Success(Allocation(map[hotkey := WEIGHT_PPM_TOTAL], [], a.ranked))
    else
      match Apportioned(ItemsOf(Merged(a.ppm, hotkey, share)))
      case Failure(e) => Failure(e)
      case Success(ppm) => Success(Allocation(ppm, a.schedule, a.ranked))
  }

  /** Python's order on (key, share) pairs. */
  predicate PairLe(a: (string, real), b: (string, real)) {
    if a.0 == b.0 then a.1 <= b.1 else LexLe(a.0, b.0)
  }

  method ApplyReservedShare(a: Allocation, hotkey: string, share: real)
      returns (r: Result<Allocation, ScoringError>)
    ensures r == Reserved(a, hotkey, share)
  {
    if hotkey == "" || share <= 0.0 {
      return Success(a);
    }
    if share > 1.0 {
      return Failure(ShareAboveOne);
    }
    if share >= 1.0 || a.ppm == map[] {
      return Success(Allocation(map[hotkey := WEIGHT_PPM_TOTAL], [], a.ranked));
    }
    var merged := Merge(a.ppm, hotkey, share);
    var listed := Items(merged);
    var ordered := SortBy(listed, PairLe);
    AnyListing(listed, ordered, merged);
    var ppm := LargestRemainderPpm(ordered);
    match ppm
    case Failure(e) => return Failure(e);
    case Success(m) => return Success(Allocation(m, a.schedule, a.ranked));
  }

  /** The loop that scales every entry and adds the reserved one. */
  method Merge(ppm: map<string, int>, hotkey: string, share: real) returns (merged: map<string, real>)
    ensures merged == Merged(ppm, hotkey, share)
  {
    var keep := 1.0 - share;
    merged := map[];
    var items := Items(ppm);
    MergeNone(items, keep);
    for i := 0 to |items|
      invariant MergedSoFar(items, i, keep, merged)
    {
      var (id, weight) := items[i];
      MergeOne(items, ppm, i, id, weight, merged, keep);
      merged := merged[id := Get(merged, id) + Earned(weight, keep)];
    }
    MergeAll(items, ppm, hotkey, share, merged);
    merged := merged[hotkey := Get(merged, hotkey) + share];
  }

  /** `merged` holds what the first `i` entries keep. */
  ghost predicate MergedSoFar(items: seq<(string, int)>, i: nat, keep: real, merged: map<string, real>) {
    i <= |items| && merged == Kept(MapOf(items[..i]), keep)
  }

  lemma MergeNone(items: seq<(string, int)>, keep: real)
    ensures MergedSoFar(items, 0, keep, map[])
  {
  }

  lemma MergeAll(
      items: seq<(string, int)>, ppm: map<string, int>, hotkey: string, share: real, merged: map<string, real>)
    requires Enumerates(items, ppm) && MergedSoFar(items, |items|, 1.0 - share, merged)
    ensures merged[hotkey := Get(merged, hotkey) + share] == Merged(ppm, hotkey, share)
  {
    assert items[..|items|] == items;
    ListingIsMap(items, ppm);
  }

  lemma MergeOne(
      items: seq<(string, int)>, ppm: map<string, int>, i: nat, id: string, weight: int,
      merged: map<string, real>, keep: real)
    requires Enumerates(items, ppm) && i < |items| && items[i] == (id, weight)
    requires MergedSoFar(items, i, keep, merged)
    ensures MergedSoFar(items, i + 1, keep, merged[id := Get(merged, id) + Earned(weight, keep)])
  {
    NotYet(items, ppm, i);
    KeptOneMore(MapOf(items[..i]), id, weight, keep);
    assert Get(merged, id) == 0.0;
  }

  lemma KeptOneMore(ppm: map<string, int>, id: string, weight: int, keep: real)
    requires id !in ppm
    ensures id !in Kept(ppm, keep)
    ensures Kept(ppm[id := weight], keep) == Kept(ppm, keep)[id := Earned(weight, keep)]
  {
  }

  lemma EnumerationDistinct(items: seq<(string, real)>, m: map<string, real>)
    requires Enumerates(items, m)
    ensures DistinctShares(items)
  {
  }

  lemma PermutationDistinct(a: seq<(string, real)>, b: seq<(string, real)>)
    requires DistinctShares(a) && multiset(a) == multiset(b)
    ensures DistinctShares(b)
  {
    forall i, j | 0 <= i < j < |b| ensures b[i].0 != b[j].0 {
      if b[i].0 == b[j].0 {
        assert b[i] in multiset(a) && b[j] in multiset(a);
        assert b[i] in a && b[j] in a;
        RepeatCounts(b, i, j);
        TwiceInSequence(a, b[i]);
      }
    }
  }

  /** However a dictionary is listed, it is apportioned alike. */
  lemma AnyListing(listed: seq<(string, real)>, ordered: seq<(string, real)>, m: map<string, real>)
    requires Enumerates(listed, m) && multiset(ordered) == multiset(listed)
    ensures Apportioned(ordered) == Apportioned(ItemsOf(m))
  {
    ListingsAgree(listed, ItemsOf(m), m);
    EnumerationDistinct(ItemsOf(m), m);
    PermutationDistinct(ItemsOf(m), ordered);
    ShareOrderIndependent(ordered, ItemsOf(m));
  }

  // ----- The uid vector -----

  predicate InRange(uidOf: map<string, int>, nUids: nat, id: string) {
    id in uidOf && 0 <= uidOf[id] < nUids
  }

  /** The entries whose hotkey holds a uid of the subnet. */
  function PlacedShares(ppm: map<string, int>, uidOf: map<string, int>, nUids: nat): map<string, real> {
    map id | id in ppm && InRange(uidOf, nUids, id) :: ppm[id] as real
  }

  /** Ppm that land on one uid. */
  function Landing(ppm: map<string, int>, uidOf: map<string, int>, uid: int): map<string, int> {
    map id | id in ppm && id in uidOf && uidOf[id] == uid :: ppm[id]
  }

  ghost function UidVector(ppm: map<string, int>, uidOf: map<string, int>, nUids: nat): seq<int> {
    seq(nUids, uid => SumValues(Landing(ppm, uidOf, uid)))
  }

  ghost function AsUid(ppm: map<string, int>, uidOf: map<string, int>, nUids: nat):
    Result<seq<int>, ScoringError>
  {
    var placed := PlacedShares(ppm, uidOf, nUids);
    if placed == map[] then Success(seq(nUids, _ => 0)) else
      match Apportioned(ItemsOf(placed))
      case Failure(e) => Failure(e)
      case Success(m) => Success(UidVector(m, uidOf, nUids))
  }

  method AsUidPpm(a: Allocation, uidOf: map<string, int>, nUids: nat)
      returns (r: Result<seq<int>, ScoringError>)
    ensures r == AsUid(a.ppm, uidOf, nUids)
  {
    var vector := seq(nUids, _ => 0);
    var placed := Place(a.ppm, uidOf, nUids);
    ghost var target := PlacedShares(a.ppm, uidOf, nUids);
    if placed == [] {
      assert target == map[];
      return Success(vector);
    }
    assert placed[0].0 in target;
    AnyListing(placed, placed, target);
    var apportioned := LargestRemainderPpm(placed);
    if apportioned.Failure? {
      return Failure(apportioned.error);
    }
    var final := apportioned.value;
    ApportionedKeys(placed, final);
    var landed := Items(final);
    vector := Land(landed, final, uidOf, nUids);
    return Success(vector);
  }

  /** The loop that keeps the entries with a uid in range. */
  method Place(ppm: map<string, int>, uidOf: map<string, int>, nUids: nat)
      returns (placed: seq<(string, real)>)
    ensures Enumerates(placed, PlacedShares(ppm, uidOf, nUids))
  {
    placed := [];
    var items := Items(ppm);
    ghost var target := PlacedShares(ppm, uidOf, nUids);
    for i := 0 to |items|
      invariant forall j, k :: 0 <= j < k < |placed| ==> placed[j].0 != placed[k].0
      invariant forall j :: 0 <= j < |placed| ==>
        && placed[j].0 in target && target[placed[j].0] == placed[j].1
        && exists k :: 0 <= k < i && items[k].0 == placed[j].0
      invariant forall k :: 0 <= k < i && items[k].0 in target ==>
        (items[k].0, target[items[k].0]) in placed
    {
      var (id, weight) := items[i];
      if InRange(uidOf, nUids, id) {
        var more := placed + [(id, weight as real)];
        assert more[|placed|] == (id, weight as real);
        placed := more;
      }
    }
    forall k | k in target ensures (k, target[k]) in placed {
      assert (k, ppm[k]) in items;
    }
  }

  lemma ApportionedKeys(shares: seq<(string, real)>, m: map<string, int>)
    requires Apportioned(shares) == Success(m)
    ensures forall k :: k in m ==> exists i :: 0 <= i < |shares| && shares[i].0 == k
  {
    if shares != [] {
      var total := SumBy(shares, ShareOf);
      forall k | k in m ensures exists i :: 0 <= i < |shares| && shares[i].0 == k {
        var e :| e in Quotas(shares, total) && e.key == k;
        var i :| 0 <= i < |shares| && Quotas(shares, total)[i] == e;
        assert shares[i].0 == k;
      }
    }
  }

  /** The loop that adds each entry's ppm to its uid's slot. */
  method Land(landed: seq<(string, int)>, m: map<string, int>, uidOf: map<string, int>, nUids: nat)
      returns (vector: seq<int>)
    requires Enumerates(landed, m)
    requires forall k :: k in m ==> InRange(uidOf, nUids, k)
    ensures vector == UidVector(m, uidOf, nUids)
  {
    vector := seq(nUids, _ => 0);
    LandNone(uidOf, nUids);
    for i := 0 to |landed|
      invariant vector == UidVector(MapOf(landed[..i]), uidOf, nUids)
    {
      var (id, ppm) := landed[i];
      NotYet(landed, m, i);
      LandOne(MapOf(landed[..i]), uidOf, nUids, id, ppm);
      vector := vector[uidOf[id] := vector[uidOf[id]] + ppm];
    }
    assert landed[..|landed|] == landed;
    ListingIsMap(landed, m);
  }

  /** The dictionary that a listing builds up. */
  ghost function MapOf<V>(items: seq<(string, V)>): map<string, V> {
    if items == [] then map[] else
      MapOf(items[..|items| - 1])[items[|items| - 1].0 := items[|items| - 1].1]
  }

  lemma {:induction false} MapOfKeys<V>(items: seq<(string, V)>, k: string)
    ensures k in MapOf(items) <==> exists i :: 0 <= i < |items| && items[i].0 == k
  {
    if items != [] {
      MapOfKeys(items[..|items| - 1], k);
      if k in MapOf(items[..|items| - 1]) {
        var i :| 0 <= i < |items| - 1 && items[..|items| - 1][i].0 == k;
        assert items[i].0 == k;
      }
    }
  }

  lemma NotYet<V>(items: seq<(string, V)>, m: map<string, V>, i: nat)
    requires Enumerates(items, m) && i < |items|
    ensures items[i].0 in m && items[i].0 !in MapOf(items[..i])
    ensures MapOf(items[..i + 1]) == MapOf(items[..i])[items[i].0 := items[i].1]
  {
    MapOfKeys(items[..i], items[i].0);
    assert items[..i + 1][..i] == items[..i];
  }

  lemma {:induction false} MapOfValues<V>(items: seq<(string, V)>, i: nat)
    requires i < |items| && forall a, b :: 0 <= a < b < |items| ==> items[a].0 != items[b].0
    ensures items[i].0 in MapOf(items) && MapOf(items)[items[i].0] == items[i].1
  {
    if i < |items| - 1 {
      MapOfValues(items[..|items| - 1], i);
    }
  }

  lemma ListingIsMap<V>(items: seq<(string, V)>, m: map<string, V>)
    requires Enumerates(items, m)
    ensures MapOf(items) == m
  {
    forall k ensures k in MapOf(items) <==> k in m {
      MapOfKeys(items, k);
      if k in m {
        var i :| 0 <= i < |items| && items[i] == (k, m[k]);
      }
    }
    forall k | k in m ensures MapOf(items)[k] == m[k] {
      assert (k, m[k]) in items;
      var i :| 0 <= i < |items| && items[i] == (k, m[k]);
      MapOfValues(items, i);
    }
  }

  lemma LandNone(uidOf: map<string, int>, nUids: nat)
    ensures UidVector(map[], uidOf, nUids) == seq(nUids, _ => 0)
  {
    assert forall uid :: Landing(map[], uidOf, uid) == map[];
  }

  lemma LandOne(done: map<string, int>, uidOf: map<string, int>, nUids: nat, id: string, ppm: int)
    requires id !in done && InRange(uidOf, nUids, id)
    ensures var v := UidVector(done, uidOf, nUids);
      UidVector(done[id := ppm], uidOf, nUids) == v[uidOf[id] := v[uidOf[id]] + ppm]
  {
    forall uid | 0 <= uid < nUids
      ensures SumValues(Landing(done[id := ppm], uidOf, uid))
           == SumValues(Landing(done, uidOf, uid)) + if uid == uidOf[id] then ppm else 0
    {
      if uid == uidOf[id] {
        SumValuesUpdate(Landing(done, uidOf, uid), id, ppm);
        assert Landing(done[id := ppm], uidOf, uid) == Landing(done, uidOf, uid)[id := ppm];
      } else {
        assert Landing(done[id := ppm], uidOf, uid) == Landing(done, uidOf, uid);
      }
    }
  }

  // ----- Reserved share is never diluted -----

  /** An allocation as its constructor and `allocate` leave it. */
  ghost predicate ProperPpm(ppm: map<string, int>) {
    && (forall id :: id in ppm ==> ppm[id] >= 0)
    && (ppm == map[] || SumValues(ppm) == WEIGHT_PPM_TOTAL)
  }

  /** Sum of a dictionary of shares. */
  ghost function Total(m: map<string, real>): real {
    if m == map[] then 0.0 else
      var id :| id in m;
      m[id] + Total(m - {id})
  }

  /** The sum may be taken starting with any key. */
  lemma {:induction false} TotalRemove(m: map<string, real>, id: string)
    requires id in m
    ensures Total(m) == m[id] + Total(m - {id})
    decreases m.Keys
  {
    var c :| c in m && Total(m) == m[c] + Total(m - {c});
    if c != id {
      assert (m - {c}).Keys < m.Keys && (m - {id}).Keys < m.Keys;
      TotalRemove(m - {c}, id);
      TotalRemove(m - {id}, c);
      assert m - {c} - {id} == m - {id} - {c};
    }
  }

  lemma TotalUpdate(m: map<string, real>, id: string, share: real)
    ensures Total(m[id := share]) == Total(m) - Get(m, id) + share
  {
    TotalRemove(m[id := share], id);
    assert m[id := share] - {id} == m - {id};
    if id in m {
      TotalRemove(m, id);
    } else {
      assert m - {id} == m;
    }
  }

  /** The sum may be taken along any listing. */
  lemma {:induction false} TotalAlong(items: seq<(string, real)>, m: map<string, real>)
    requires Enumerates(items, m)
    ensures SumBy(items, ShareOf) == Total(m)
  {
    if items == [] {
      assert forall k :: k in m ==> (k, m[k]) in items;
      assert m == map[];
    } else {
      var init, last := items[..|items| - 1], items[|items| - 1];
      ListingInit(items, m);
      TotalAlong(init, m - {last.0});
      TotalRemove(m, last.0);
    }
  }

  lemma ListingInit(items: seq<(string, real)>, m: map<string, real>)
    requires items != [] && Enumerates(items, m)
    ensures Enumerates(items[..|items| - 1], m - {items[|items| - 1].0})
    ensures items[|items| - 1].0 in m && m[items[|items| - 1].0] == items[|items| - 1].1
  {
    var init, last := items[..|items| - 1], items[|items| - 1];
    var rest := m - {last.0};
    assert forall k :: k in m ==> (k, m[k]) in items;
    forall k | k in rest ensures (k, rest[k]) in init {
      var i :| 0 <= i < |items| && items[i] == (k, m[k]);
      assert init[i] == (k, rest[k]);
    }
  }

  function Plus(a: int, b: int): int { a + b }

  ghost predicate Additive(f: int -> real) {
    f(0) == 0.0 && forall a, b :: f(Plus(a, b)) == f(a) + f(b)
  }

  /** Shares that are additive in integer weights total the same of the weights' sum. */
  lemma {:induction false} AdditiveTotal(m: map<string, real>, ppm: map<string, int>, f: int -> real)
    requires Additive(f)
    requires m.Keys == ppm.Keys && forall id :: id in ppm ==> m[id] == f(ppm[id])
    ensures Total(m) == f(SumValues(ppm))
    decreases ppm.Keys
  {
    if ppm == map[] {
      assert m == map[];
    } else {
      var id :| id in ppm;
      var rest, left := m - {id}, ppm - {id};
      assert left.Keys < ppm.Keys;
      AdditiveTotal(rest, left, f);
      TotalRemove(m, id);
      SumValuesRemove(ppm, id);
      assert SumValues(ppm) == Plus(SumValues(left), ppm[id]);
    }
  }

  lemma EarnedAdditive(keep: real)
    ensures Additive((weight: int) => Earned(weight, keep))
  {
    forall a: int, b: int ensures Earned(Plus(a, b), keep) == Earned(a, keep) + Earned(b, keep) {
      assert (a + b) as real / TOTAL == a as real / TOTAL + b as real / TOTAL;
      Spread(keep, a as real / TOTAL, b as real / TOTAL);
    }
  }

  lemma {:induction false} SubsetTotal(part: map<string, int>, ppm: map<string, int>)
    requires part.Keys <= ppm.Keys
    requires forall id :: id in ppm ==> ppm[id] >= 0 && (id in part ==> part[id] == ppm[id])
    ensures 0 <= SumValues(part) <= SumValues(ppm)
    decreases ppm.Keys
  {
    if ppm == map[] {
      assert part == map[];
    } else {
      var id :| id in ppm;
      assert (ppm - {id}).Keys < ppm.Keys;
      SubsetTotal(part - {id}, ppm - {id});
      SumValuesRemove(ppm, id);
      if id in part {
        SumValuesRemove(part, id);
      } else {
        assert part - {id} == part;
      }
    }
  }

  lemma SingleInTotal(ppm: map<string, int>, id: string)
    requires id in ppm && forall k :: k in ppm ==> ppm[k] >= 0
    ensures ppm[id] <= SumValues(ppm)
  {
    SumValuesRemove(ppm, id);
    SubsetTotal(map[], ppm - {id});
  }

  lemma ListedKeys(items: seq<(string, real)>, m: map<string, real>)
    requires Enumerates(items, m)
    ensures m.Keys == set s | s in items :: s.0
  {
    forall k | k in m ensures exists s :: s in items && s.0 == k {
      assert (k, m[k]) in items;
    }
  }

  /** A dictionary of non-negative shares with something in it apportions properly. */
  lemma ListedProper(m: map<string, real>)
    requires forall id :: id in m ==> m[id] >= 0.0
    requires Total(m) > 0.0
    ensures ProperShares(ItemsOf(m))
    ensures Apportioned(ItemsOf(m)).Success?
    ensures ProperPpm(Apportioned(ItemsOf(m)).value)
    ensures Apportioned(ItemsOf(m)).value.Keys == m.Keys
  {
    var items := ItemsOf(m);
    TotalAlong(items, m);
    assert ProperShares(items);
    ProperAllocation(items);
    ProperSharesExact(items);
    ListedKeys(items, m);
  }

  /** Of a total share, each key gets at least its floor in ppm. */
  lemma ListedFloor(m: map<string, real>, id: string)
    requires id in m && (forall k :: k in m ==> m[k] >= 0.0) && Total(m) > 0.0
    ensures Apportioned(ItemsOf(m)).Success? && id in Apportioned(ItemsOf(m)).value
    ensures Apportioned(ItemsOf(m)).value[id] >= Truncate(Quota((id, m[id]), Total(m)).quota)
  {
    ListedProper(m);
    var items := ItemsOf(m);
    assert (id, m[id]) in items;
    var i :| 0 <= i < |items| && items[i] == (id, m[id]);
    TotalAlong(items, m);
    ShareFloor(items, i);
  }

  lemma KeptTotal(ppm: map<string, int>, keep: real)
    requires SumValues(ppm) == WEIGHT_PPM_TOTAL
    ensures Total(Kept(ppm, keep)) == keep
  {
    EarnedAdditive(keep);
    AdditiveTotal(Kept(ppm, keep), ppm, (weight: int) => Earned(weight, keep));
  }

  lemma MergedTotal(ppm: map<string, int>, hotkey: string, share: real)
    requires ProperPpm(ppm) && ppm != map[]
    ensures Total(Merged(ppm, hotkey, share)) == 1.0
  {
    KeptTotal(ppm, 1.0 - share);
    var kept := Kept(ppm, 1.0 - share);
    TotalUpdate(kept, hotkey, Get(kept, hotkey) + share);
  }

  lemma MergedNonNegative(ppm: map<string, int>, hotkey: string, share: real, id: string)
    requires ProperPpm(ppm) && 0.0 < share <= 1.0 && id in Merged(ppm, hotkey, share)
    ensures Merged(ppm, hotkey, share)[id] >= if id == hotkey then share else 0.0
  {
    if id in ppm {
      ProductNonneg(ppm[id] as real / TOTAL, 1.0 - share);
    }
  }

  /** After reservation the hotkey holds at least the floor of its share. */
  lemma ReservedFloor(a: Allocation, hotkey: string, share: real)
    requires ProperPpm(a.ppm) && hotkey != "" && 0.0 < share <= 1.0
    ensures Reserved(a, hotkey, share).Success?
    ensures var b := Reserved(a, hotkey, share).value;
      ProperPpm(b.ppm) && hotkey in b.ppm && b.ppm[hotkey] >= (share * TOTAL).Floor
  {
    if share >= 1.0 || a.ppm == map[] {
      SumValuesUpdate(map[], hotkey, WEIGHT_PPM_TOTAL);
      assert map[][hotkey := WEIGHT_PPM_TOTAL] == map[hotkey := WEIGHT_PPM_TOTAL];
    } else {
      var merged := Merged(a.ppm, hotkey, share);
      MergedTotal(a.ppm, hotkey, share);
      forall id | id in merged ensures merged[id] >= 0.0 {
        MergedNonNegative(a.ppm, hotkey, share, id);
      }
      MergedNonNegative(a.ppm, hotkey, share, hotkey);
      ListedProper(merged);
      ListedFloor(merged, hotkey);
      QuotaOfWhole(hotkey, merged[hotkey], share);
    }
  }

  /** Out of a total of one, a share of at least `share` has a quota of at least that many ppm. */
  lemma QuotaOfWhole(id: string, x: real, share: real)
    requires 0.0 < share <= x
    ensures Truncate(Quota((id, x), 1.0).quota) >= (share * TOTAL).Floor
  {
    assert Quota((id, x), 1.0).quota >= share * TOTAL;
  }

  /** The placed part of an allocation, and what it totals. */
  lemma PlacedTotal(ppm: map<string, int>, uidOf: map<string, int>, nUids: nat) returns (total: int)
    requires ProperPpm(ppm)
    ensures 0 <= total <= WEIGHT_PPM_TOTAL
    ensures Total(PlacedShares(ppm, uidOf, nUids)) == total as real
    ensures forall id :: id in ppm && InRange(uidOf, nUids, id) ==> ppm[id] <= total
  {
    var placed := PlacedShares(ppm, uidOf, nUids);
    var part := map k | k in placed :: ppm[k];
    AdditiveTotal(placed, part, (weight: int) => weight as real);
    SubsetTotal(part, ppm);
    total := SumValues(part);
    forall id | id in part ensures part[id] <= total {
      SingleInTotal(part, id);
    }
  }

  /** Placing over registered uids never takes ppm away from an entry that is placed. */
  lemma PlacedKeeps(ppm: map<string, int>, uidOf: map<string, int>, nUids: nat, id: string)
    requires ProperPpm(ppm) && id in ppm && InRange(uidOf, nUids, id)
    ensures AsUid(ppm, uidOf, nUids).Success? ==>
      AsUid(ppm, uidOf, nUids).value[uidOf[id]] >= ppm[id]
    ensures ppm[id] >= 1 ==> AsUid(ppm, uidOf, nUids).Success?
  {
    var placed := PlacedShares(ppm, uidOf, nUids);
    assert placed != map[] by { assert id in placed; }
    var total := PlacedTotal(ppm, uidOf, nUids);
    if total > 0 {
      PlacedApportioned(ppm, uidOf, nUids, id, total);
      var final := Apportioned(ItemsOf(placed)).value;
      LandsOn(final, uidOf, nUids, id);
      AsUidIs(ppm, uidOf, nUids, final);
    } else if AsUid(ppm, uidOf, nUids).Success? {
      var final := Apportioned(ItemsOf(placed)).value;
      NothingPlaced(placed);
    }
  }

  lemma AsUidIs(ppm: map<string, int>, uidOf: map<string, int>, nUids: nat, final: map<string, int>)
    requires PlacedShares(ppm, uidOf, nUids) != map[]
    requires Apportioned(ItemsOf(PlacedShares(ppm, uidOf, nUids))) == Success(final)
    ensures AsUid(ppm, uidOf, nUids) == Success(UidVector(final, uidOf, nUids))
  {
  }

  /** Placed entries without any ppm between them cannot be apportioned. */
  lemma NothingPlaced(placed: map<string, real>)
    requires placed != map[] && Total(placed) <= 0.0
    ensures Apportioned(ItemsOf(placed)).Failure?
  {
    var k :| k in placed;
    assert (k, placed[k]) in ItemsOf(placed);
    TotalAlong(ItemsOf(placed), placed);
  }

  lemma PlacedApportioned(
      ppm: map<string, int>, uidOf: map<string, int>, nUids: nat, id: string, total: int)
    requires ProperPpm(ppm) && id in ppm && InRange(uidOf, nUids, id)
    requires ppm[id] <= total && 0 < total <= WEIGHT_PPM_TOTAL
    requires Total(PlacedShares(ppm, uidOf, nUids)) == total as real
    ensures var r := Apportioned(ItemsOf(PlacedShares(ppm, uidOf, nUids)));
      && r.Success? && ProperPpm(r.value) && id in r.value && r.value[id] >= ppm[id]
  {
    var placed := PlacedShares(ppm, uidOf, nUids);
    assert id in placed && placed[id] == ppm[id] as real;
    ListedProper(placed);
    ListedFloor(placed, id);
    QuotaWhenFewer(id, ppm[id], total);
  }

  lemma LandsOn(final: map<string, int>, uidOf: map<string, int>, nUids: nat, id: string)
    requires id in final && InRange(uidOf, nUids, id) && forall k :: k in final ==> final[k] >= 0
    ensures UidVector(final, uidOf, nUids)[uidOf[id]] >= final[id]
  {
    SingleInTotal(Landing(final, uidOf, uidOf[id]), id);
  }

  /** Out of a total of at most a million, a weight's quota is at least itself. */
  lemma QuotaWhenFewer(id: string, weight: int, total: int)
    requires 0 <= weight <= total <= WEIGHT_PPM_TOTAL && total > 0
    ensures Truncate(Quota((id, weight as real), total as real).quota) >= weight
  {
    var share := weight as real / total as real;
    QuotientTimes(weight as real, total as real);
    DivideLe(0.0, weight as real, total as real);
    ScaleLe(share, total as real, TOTAL);
  }

  lemma QuotientTimes(x: real, y: real)
    requires y > 0.0
    ensures x / y * y == x
  {
  }

  /**
   * The reserved share is never diluted: whatever was earned, and whoever else holds a uid, a
   * reserved hotkey with a uid in range ends up with at least the floor of its share of a million,
   * and the placement cannot fail when that floor is at least one.
   */
  lemma ReservedNeverDiluted(
      a: Allocation, hotkey: string, share: real, uidOf: map<string, int>, nUids: nat)
    requires ProperPpm(a.ppm) && hotkey != "" && 0.0 < share <= 1.0
    requires InRange(uidOf, nUids, hotkey)
    ensures Reserved(a, hotkey, share).Success?
    ensures var placed := AsUid(Reserved(a, hotkey, share).value.ppm, uidOf, nUids);
      && ((share * TOTAL).Floor >= 1 ==> placed.Success?)
      && (placed.Success? ==> placed.value[uidOf[hotkey]] >= (share * TOTAL).Floor)
  {
    ReservedFloor(a, hotkey, share);
    PlacedKeeps(Reserved(a, hotkey, share).value.ppm, uidOf, nUids, hotkey);
  }

  // ----- Publishing -----

  datatype Neuron = Neuron(uid: int, hotkey: string)

  datatype WeightPublicationError = LengthsDiffer | EmptyVector | NegativeWeight | WrongTotal

  datatype PublishError = Scoring(scoring: ScoringError) | Refused(refusal: WeightPublicationError)

  function ValidateWeights(uids: seq<int>, weights: seq<int>): Result<(), WeightPublicationError> {
    if |uids| != |weights| then Failure(LengthsDiffer)
    else if uids == [] then Failure(EmptyVector)
    else if exists i :: 0 <= i < |weights| && weights[i] < 0 then Failure(NegativeWeight)
    else if SumInt(weights) != WEIGHT_PPM_TOTAL then Failure(WrongTotal)
    else Success(())
  }

  /** The in-process chain double; what it publishes is what the real chain would be sent. */
  class OfflineChain {
    var published: seq<(seq<int>, seq<int>)>

    constructor ()
      ensures published == []
    {
      published := [];
    }

    method SetWeights(uids: seq<int>, weights: seq<int>) returns (r: Result<(), WeightPublicationError>)
      modifies this
      ensures r == ValidateWeights(uids, weights)
      ensures published == old(published) + if r.Success? then [(uids, weights)] else []
    {
      r := ValidateWeights(uids, weights);
      if r.Success? {
        published := published + [(uids, weights)];
      }
    }
  }

  /** The uid of each hotkey, the last neuron with it winning. */
  function UidsOf(neurons: seq<Neuron>): map<string, int> {
    if neurons == [] then map[] else
      var last := neurons[|neurons| - 1];
      UidsOf(neurons[..|neurons| - 1])[last.hotkey := last.uid]
  }

  /** The uids with a positive weight, in increasing order. */
  function Positive(vector: seq<int>): (uids: seq<int>)
    ensures forall uid :: uid in uids <==> 0 <= uid < |vector| && vector[uid] > 0
    ensures forall i :: 0 <= i < |uids| ==> 0 <= uids[i] < |vector| && vector[uids[i]] > 0
  {
    if vector == [] then [] else
      var n := |vector| - 1;
      Positive(vector[..n]) + if vector[n] > 0 then [n] else []
  }

  function WeightsAt(vector: seq<int>, uids: seq<int>): (weights: seq<int>)
    requires forall i :: 0 <= i < |uids| ==> 0 <= uids[i] < |vector|
    ensures |weights| == |uids|
  {
    seq(|uids|, i requires 0 <= i < |uids| => vector[uids[i]])
  }

  ghost predicate NonNegative(vector: seq<int>) {
    forall i :: 0 <= i < |vector| ==> vector[i] >= 0
  }

  lemma WeightsPrefix(vector: seq<int>, n: nat, uids: seq<int>)
    requires n <= |vector| && forall i :: 0 <= i < |uids| ==> 0 <= uids[i] < n
    ensures WeightsAt(vector[..n], uids) == WeightsAt(vector, uids)
  {
  }

  lemma WeightsOneMore(vector: seq<int>, uids: seq<int>, uid: nat)
    requires uid < |vector| && forall i :: 0 <= i < |uids| ==> 0 <= uids[i] < |vector|
    ensures SumInt(WeightsAt(vector, uids + [uid])) == SumInt(WeightsAt(vector, uids)) + vector[uid]
  {
    var weights := WeightsAt(vector, uids + [uid]);
    assert weights[..|uids|] == WeightsAt(vector, uids);
  }

  /** Dropping the zeros leaves the total. */
  lemma {:induction false} PositiveTotal(vector: seq<int>)
    requires NonNegative(vector)
    ensures SumInt(WeightsAt(vector, Positive(vector))) == SumInt(vector)
  {
    if vector != [] {
      var n := |vector| - 1;
      var before := Positive(vector[..n]);
      PositiveTotal(vector[..n]);
      WeightsPrefix(vector, n, before);
      if vector[n] > 0 {
        WeightsOneMore(vector, before, n);
        assert Positive(vector) == before + [n];
      } else {
        assert Positive(vector) == before;
      }
    }
  }

  lemma {:induction false} ZeroTotal(n: nat)
    ensures SumInt(seq(n, _ => 0)) == 0
  {
    if n > 0 {
      ZeroTotal(n - 1);
      assert seq(n, _ => 0)[..n - 1] == seq(n - 1, _ => 0);
    }
  }

  /** Adding an entry to its slot adds it to the total. */
  lemma {:induction false} SlotTotal(v: seq<int>, i: nat, x: int)
    requires i < |v|
    ensures SumInt(v[i := x]) == SumInt(v) - v[i] + x
  {
    if i == |v| - 1 {
      assert v[i := x][..i] == v[..i];
    } else {
      SlotTotal(v[..|v| - 1], i, x);
      assert v[i := x][..|v| - 1] == v[..|v| - 1][i := x];
    }
  }

  /** Every entry lands on exactly one uid, so the vector totals what was placed. */
  lemma {:induction false} VectorTotal(m: map<string, int>, uidOf: map<string, int>, nUids: nat)
    requires forall k :: k in m ==> InRange(uidOf, nUids, k) && m[k] >= 0
    ensures SumInt(UidVector(m, uidOf, nUids)) == SumValues(m)
    ensures NonNegative(UidVector(m, uidOf, nUids))
    decreases m.Keys
  {
    if m == map[] {
      LandNone(uidOf, nUids);
      ZeroTotal(nUids);
    } else {
      var id :| id in m;
      var rest := m - {id};
      assert rest.Keys < m.Keys;
      VectorTotal(rest, uidOf, nUids);
      VectorOneMore(rest, uidOf, nUids, id, m[id]);
      assert rest[id := m[id]] == m;
      SumValuesRemove(m, id);
    }
  }

  lemma VectorOneMore(m: map<string, int>, uidOf: map<string, int>, nUids: nat, id: string, ppm: nat)
    requires id !in m && InRange(uidOf, nUids, id)
    ensures var v, w := UidVector(m, uidOf, nUids), UidVector(m[id := ppm], uidOf, nUids);
      && SumInt(w) == SumInt(v) + ppm
      && (NonNegative(v) ==> NonNegative(w))
  {
    LandOne(m, uidOf, nUids, id, ppm);
    var v := UidVector(m, uidOf, nUids);
    SlotTotal(v, uidOf[id], v[uidOf[id]] + ppm);
  }

  /** What `as_uid_ppm` yields: all zeros when nobody is placed, otherwise a million in all. */
  lemma AsUidTotal(ppm: map<string, int>, uidOf: map<string, int>, nUids: nat)
    requires ProperPpm(ppm) && AsUid(ppm, uidOf, nUids).Success?
    ensures var v := AsUid(ppm, uidOf, nUids).value;
      && |v| == nUids && NonNegative(v)
      && SumInt(v) == if PlacedShares(ppm, uidOf, nUids) == map[] then 0 else WEIGHT_PPM_TOTAL
  {
    var placed := PlacedShares(ppm, uidOf, nUids);
    if placed == map[] {
      ZeroTotal(nUids);
    } else {
      var items := ItemsOf(placed);
      TotalAlong(items, placed);
      var k :| k in placed;
      assert (k, placed[k]) in items;
      ListedProper(placed);
      var m := Apportioned(items).value;
      ProperSharesExact(items);
      VectorTotal(m, uidOf, nUids);
    }
  }

  /** The placement fails exactly when someone is placed and nobody placed holds any ppm. */
  lemma AsUidFails(ppm: map<string, int>, uidOf: map<string, int>, nUids: nat)
    requires ProperPpm(ppm)
    ensures AsUid(ppm, uidOf, nUids).Failure? <==>
      && PlacedShares(ppm, uidOf, nUids) != map[]
      && forall id :: id in PlacedShares(ppm, uidOf, nUids) ==> ppm[id] == 0
  {
    var placed := PlacedShares(ppm, uidOf, nUids);
    var total := PlacedTotal(ppm, uidOf, nUids);
    TotalAlong(ItemsOf(placed), placed);
    if placed != map[] {
      var k :| k in placed;
      assert (k, placed[k]) in ItemsOf(placed);
      if total > 0 {
        ListedProper(placed);
        if forall id :: id in placed ==> ppm[id] == 0 {
          ZeroShares(placed);
        }
      }
    }
  }

  lemma {:induction false} ZeroShares(m: map<string, real>)
    requires forall id :: id in m ==> m[id] == 0.0
    ensures Total(m) == 0.0
    decreases m.Keys
  {
    if m != map[] {
      var id :| id in m;
      assert (m - {id}).Keys < m.Keys;
      ZeroShares(m - {id});
      TotalRemove(m, id);
    }
  }

  /**
   * `publish`: either nobody holds a positive weight and the chain is not called, or exactly one
   * vector goes out, and it passes the chain's own validation.
   */
  method Publish(chain: OfflineChain, a: Allocation, neurons: seq<Neuron>)
      returns (r: Result<(seq<int>, seq<int>), PublishError>)
    requires ProperPpm(a.ppm)
    modifies chain
    ensures r.Failure? <==> AsUid(a.ppm, UidsOf(neurons), |neurons|).Failure?
    ensures r.Failure? ==> r.error.Scoring? && chain.published == old(chain.published)
    ensures r.Success? ==>
      var vector := AsUid(a.ppm, UidsOf(neurons), |neurons|).value;
      && r.value.0 == Positive(vector)
      && r.value.1 == WeightsAt(vector, Positive(vector))
      && (r.value.0 == [] <==> PlacedShares(a.ppm, UidsOf(neurons), |neurons|) == map[])
      && (r.value.0 != [] ==> ValidateWeights(r.value.0, r.value.1).Success?)
      && chain.published == old(chain.published) + if r.value.0 == [] then [] else [r.value]
  {
    var uidOf := UidMap(neurons);
    var placed := AsUidPpm(a, uidOf, |neurons|);
    if placed.Failure? {
      return Failure(Scoring(placed.error));
    }
    var vector := placed.value;
    AsUidTotal(a.ppm, uidOf, |neurons|);
    PublishedValid(vector);
    var uids := Positive(vector);
    var weights := WeightsAt(vector, uids);
    if uids != [] {
      var sent := chain.SetWeights(uids, weights);
    }
    return Success((uids, weights));
  }

  /** The two passes over the neurons: positions first, then each neuron's own uid. */
  method UidMap(neurons: seq<Neuron>) returns (uidOf: map<string, int>)
    ensures uidOf == UidsOf(neurons)
  {
    uidOf := map[];
    for index := 0 to |neurons|
      invariant forall k :: k in uidOf ==> exists j :: 0 <= j < index && neurons[j].hotkey == k
    {
      uidOf := uidOf[neurons[index].hotkey := index];
    }
    ghost var indexed := uidOf;
    for i := 0 to |neurons|
      invariant uidOf == indexed + UidsOf(neurons[..i])
    {
      assert neurons[..i + 1][..i] == neurons[..i];
      uidOf := uidOf[neurons[i].hotkey := neurons[i].uid];
    }
    assert neurons[..|neurons|] == neurons;
    Covered(neurons);
  }

  /** A vector that totals zero or a million publishes nothing or something the chain accepts. */
  lemma PublishedValid(vector: seq<int>)
    requires NonNegative(vector) && SumInt(vector) in {0, WEIGHT_PPM_TOTAL}
    ensures var uids := Positive(vector);
      && (uids == [] <==> SumInt(vector) == 0)
      && (uids != [] ==> ValidateWeights(uids, WeightsAt(vector, uids)).Success?)
  {
    PositiveTotal(vector);
    var uids := Positive(vector);
    if uids == [] {
      assert SumInt(WeightsAt(vector, uids)) == 0;
    } else {
      SomeWeight(vector, uids);
    }
  }

  lemma WorkablePpm(quotas: seq<Entry>)
    requires Workable(quotas)
    ensures forall k :: k in Rounded(quotas) ==> Rounded(quotas)[k] >= 0 && exists e :: e in quotas && e.key == k
  {
    var r := Rounded(quotas);
    forall k | k in r ensures r[k] >= 0 && exists e :: e in quotas && e.key == k {
      var e :| e in quotas && e.key == k;
      var j := PositionOf(quotas, e);
    }
  }

  /** Computed quotas of placed keys still make a vector that totals a million and that the chain accepts. */
  lemma VectorUnderRounding(
      exact: seq<Entry>, computed: seq<Entry>, delta: real, uidOf: map<string, int>, nUids: nat)
    requires ExactQuotas(exact) && RoundingOf(exact, computed, delta) && Times(|exact|, delta) < 1.0
    requires forall e :: e in computed ==> InRange(uidOf, nUids, e.key)
    ensures var vector := UidVector(Rounded(computed), uidOf, nUids);
      && NonNegative(vector) && SumInt(vector) == WEIGHT_PPM_TOTAL && Positive(vector) != []
      && ValidateWeights(Positive(vector), WeightsAt(vector, Positive(vector))).Success?
  {
    RemainderUnderRounding(exact, computed, delta);
    RoundedWorkable(exact, computed, delta);
    WorkablePpm(computed);
    VectorTotal(Rounded(computed), uidOf, nUids);
    PublishedValid(UidVector(Rounded(computed), uidOf, nUids));
  }

  /** The quotas `as_uid_ppm` means for the entries it places. */
  ghost function PlacedQuotas(ppm: map<string, int>, uidOf: map<string, int>, nUids: nat): seq<Entry>
    requires Total(PlacedShares(ppm, uidOf, nUids)) > 0.0
  {
    Quotas(ItemsOf(PlacedShares(ppm, uidOf, nUids)), Total(PlacedShares(ppm, uidOf, nUids)))
  }

  /**
   * With anything placed, whatever rounding makes of the quotas of the second apportionment, as long
   * as it leaves their keys alone and all errors together are below one ppm, one vector results and
   * the chain accepts it.
   */
  lemma PublishedUnderRounding(
      ppm: map<string, int>, uidOf: map<string, int>, nUids: nat, computed: seq<Entry>, delta: real)
    requires ProperPpm(ppm) && Total(PlacedShares(ppm, uidOf, nUids)) > 0.0
    requires var exact := PlacedQuotas(ppm, uidOf, nUids);
      && RoundingOf(exact, computed, delta) && Times(|exact|, delta) < 1.0
      && forall i :: 0 <= i < |exact| ==> computed[i].key == exact[i].key
    ensures var vector := UidVector(Rounded(computed), uidOf, nUids);
      && SumInt(vector) == WEIGHT_PPM_TOTAL && Positive(vector) != []
      && ValidateWeights(Positive(vector), WeightsAt(vector, Positive(vector))).Success?
  {
    var placed := PlacedShares(ppm, uidOf, nUids);
    var items, exact := ItemsOf(placed), PlacedQuotas(ppm, uidOf, nUids);
    ListedProper(placed);
    TotalAlong(items, placed);
    ProperQuotas(items);
    forall e | e in computed ensures InRange(uidOf, nUids, e.key) {
      var i :| 0 <= i < |computed| && computed[i] == e;
      assert exact[i].key == items[i].0 && items[i].0 in placed;
    }
    VectorUnderRounding(exact, computed, delta, uidOf, nUids);
  }

  lemma {:induction false} Covered(neurons: seq<Neuron>)
    ensures forall i :: 0 <= i < |neurons| ==> neurons[i].hotkey in UidsOf(neurons)
  {
    if neurons != [] {
      Covered(neurons[..|neurons| - 1]);
      forall i | 0 <= i < |neurons| ensures neurons[i].hotkey in UidsOf(neurons) {
        assert i < |neurons| - 1 ==> neurons[..|neurons| - 1][i] == neurons[i];
      }
    }
  }

  lemma SomeWeight(vector: seq<int>, uids: seq<int>)
    requires NonNegative(vector) && uids == Positive(vector) && uids != []
    ensures SumInt(vector) > 0
  {
    assert uids[0] in uids;
    PositiveSlot(vector, uids[0]);
  }

  lemma {:induction false} PositiveSlot(vector: seq<int>, i: nat)
    requires NonNegative(vector) && i < |vector|
    ensures SumInt(vector) >= vector[i]
    decreases |vector|
  {
    var n := |vector| - 1;
    if i < n {
      PositiveSlot(vector[..n], i);
    } else if n > 0 {
      PositiveSlot(vector[..n], 0);
    }
  }
}
