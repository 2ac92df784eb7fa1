/**
 * src/enclave/scoring/allocation.py and src/enclave/validator/round.py: what the reserved share leaves
 * to everybody, and what of an allocation reaches the chain.
 */
module PublicationLaws {
  import opened Apportionment
  import opened Dicts
  import opened Numbers
  import opened Publication
  import opened Ranking
  import opened Sums
  import opened Wrappers

  /** A whole number of ppm within one of `due`. */
  predicate Near(ppm: int, due: real) { -1.0 < ppm as real - due < 1.0 }

  // ----- The reserved share -----

  lemma {:induction false} ListedAt(m: map<string, real>, id: string) returns (i: nat)
    requires id in m
    ensures i < |ItemsOf(m)| && ItemsOf(m)[i] == (id, m[id])
  {
    assert (id, m[id]) in ItemsOf(m);
    i :| 0 <= i < |ItemsOf(m)| && ItemsOf(m)[i] == (id, m[id]);
  }

  lemma {:induction false} ListedNear(m: map<string, real>, id: string, ppm: map<string, int>)
    requires id in m && (forall k :: k in m ==> m[k] >= 0.0) && Total(m) > 0.0
    requires Apportioned(ItemsOf(m)) == Success(ppm)
    ensures id in ppm && Near(ppm[id], m[id] / Total(m) * 1_000_000.0)
  {
    ListedProper(m);
    TotalAlong(ItemsOf(m), m);
    var i := ListedAt(m, id);
    ShareNear(ItemsOf(m), i);
  }

  lemma {:induction false} ListedMonotone(m: map<string, real>, x: string, y: string, ppm: map<string, int>)
    requires x in m && y in m && (forall k :: k in m ==> m[k] >= 0.0) && Total(m) > 0.0 && m[x] >= m[y]
    requires Apportioned(ItemsOf(m)) == Success(ppm)
    ensures x in ppm && y in ppm
    ensures m[x] > m[y] ==> ppm[x] >= ppm[y]
    ensures m[x] == m[y] ==> -1 <= ppm[x] - ppm[y] <= 1
  {
    ListedProper(m);
    var i := ListedAt(m, x);
    var j := ListedAt(m, y);
    ShareMonotone(ItemsOf(m), i, j);
  }

  lemma KeptOfMillion(weight: int, share: real)
    ensures Earned(weight, 1.0 - share) * 1_000_000.0 == (1.0 - share) * weight as real
  {
  }

  lemma KeptWithShare(weight: int, share: real)
    ensures (Earned(weight, 1.0 - share) + share) * 1_000_000.0
      == share * 1_000_000.0 + (1.0 - share) * weight as real
  {
    KeptOfMillion(weight, share);
  }

  lemma EarnedMore(x: int, y: int, keep: real)
    requires x > y && keep > 0.0
    ensures Earned(x, keep) > Earned(y, keep)
  {
    DivideLt(y as real, x as real, TOTAL);
    ScaleLt(keep, y as real / TOTAL, x as real / TOTAL);
  }

  /** What `id` holds after a part `share` of the pool went to `hotkey`. */
  function DueAfter(ppm: map<string, int>, hotkey: string, share: real, id: string): real {
    (1.0 - share) * (if id in ppm then ppm[id] as real else 0.0)
      + (if id == hotkey then share * 1_000_000.0 else 0.0)
  }

  lemma {:induction false} MergedKeys(ppm: map<string, int>, hotkey: string, share: real)
    ensures Merged(ppm, hotkey, share).Keys == ppm.Keys + {hotkey}
  {
  }

  lemma {:induction false} MergedProper(ppm: map<string, int>, hotkey: string, share: real)
    requires ProperPpm(ppm) && ppm != map[] && 0.0 < share < 1.0
    ensures Total(Merged(ppm, hotkey, share)) == 1.0
    ensures forall id :: id in Merged(ppm, hotkey, share) ==> Merged(ppm, hotkey, share)[id] >= 0.0
  {
    MergedTotal(ppm, hotkey, share);
    forall id | id in Merged(ppm, hotkey, share) ensures Merged(ppm, hotkey, share)[id] >= 0.0 {
      MergedNonNegative(ppm, hotkey, share, id);
    }
  }

  /** The pool divided anew: shares of everybody there was and of `hotkey`, adding up to one. */
  lemma {:induction false} MergedShares(ppm: map<string, int>, hotkey: string, share: real)
      returns (m: map<string, real>)
    requires ProperPpm(ppm) && ppm != map[] && 0.0 < share < 1.0
    ensures m == Merged(ppm, hotkey, share) && m.Keys == ppm.Keys + {hotkey}
    ensures Total(m) == 1.0 && forall id :: id in m ==> m[id] >= 0.0
    ensures Apportioned(ItemsOf(m)).Success? && ProperPpm(Apportioned(ItemsOf(m)).value)
    ensures Apportioned(ItemsOf(m)).value.Keys == m.Keys
  {
    m := Merged(ppm, hotkey, share);
    MergedKeys(ppm, hotkey, share);
    MergedProper(ppm, hotkey, share);
    ListedProper(m);
  }

  lemma {:induction false} DueIs(ppm: map<string, int>, hotkey: string, share: real, id: string)
    requires id in ppm || id == hotkey
    ensures id in Merged(ppm, hotkey, share)
    ensures Merged(ppm, hotkey, share)[id] * 1_000_000.0 == DueAfter(ppm, hotkey, share, id)
  {
    if id in ppm {
      KeptOfMillion(ppm[id], share);
      KeptWithShare(ppm[id], share);
    }
  }

  lemma {:induction false} ReservedIs(a: Allocation, hotkey: string, share: real, m: map<string, real>)
    requires a.ppm != map[] && hotkey != "" && 0.0 < share < 1.0 && m == Merged(a.ppm, hotkey, share)
    requires Apportioned(ItemsOf(m)).Success?
    ensures Reserved(a, hotkey, share) == Success(Allocation(Apportioned(ItemsOf(m)).value, a.schedule, a.ranked))
  {
  }

  lemma {:induction false} OfOneNear(shares: seq<(string, real)>, i: nat, ppm: map<string, int>, due: real)
    requires ProperShares(shares) && SumBy(shares, ShareOf) == 1.0 && Apportioned(shares) == Success(ppm)
    requires i < |shares| && shares[i].1 * 1_000_000.0 == due
    ensures shares[i].0 in ppm && Near(ppm[shares[i].0], due)
  {
    ShareNear(shares, i);
  }

  lemma {:induction false} ReservedDue(m: map<string, real>, after: map<string, int>, id: string, due: real)
    requires (forall k :: k in m ==> m[k] >= 0.0) && Total(m) == 1.0 && Apportioned(ItemsOf(m)) == Success(after)
    requires id in m && m[id] * 1_000_000.0 == due
    ensures id in after && Near(after[id], due)
  {
    ListedProper(m);
    TotalAlong(ItemsOf(m), m);
    var i := ListedAt(m, id);
    OfOneNear(ItemsOf(m), i, after, due);
  }

  /**
   * Reserving a part of the pool scales everybody else down by it and adds it to the hotkey, each to
   * within one ppm. Nobody else joins, nobody leaves, and schedule and ranking stay.
   */
  lemma {:induction false} ReservedScales(a: Allocation, hotkey: string, share: real)
    requires ProperPpm(a.ppm) && a.ppm != map[] && hotkey != "" && 0.0 < share < 1.0
    ensures Reserved(a, hotkey, share).Success?
    ensures var b := Reserved(a, hotkey, share).value;
      && b.ppm.Keys == a.ppm.Keys + {hotkey} && SumValues(b.ppm) == 1_000_000
      && b.schedule == a.schedule && b.ranked == a.ranked
      && forall id :: id in b.ppm ==> Near(b.ppm[id], DueAfter(a.ppm, hotkey, share, id))
  {
    var m := MergedShares(a.ppm, hotkey, share);
    var after := Apportioned(ItemsOf(m)).value;
    ReservedIs(a, hotkey, share, m);
    forall id | id in after ensures Near(after[id], DueAfter(a.ppm, hotkey, share, id)) {
      DueIs(a.ppm, hotkey, share, id);
      ReservedDue(m, after, id, DueAfter(a.ppm, hotkey, share, id));
    }
    SumIsMillion(after, hotkey);
  }

  lemma SumIsMillion(ppm: map<string, int>, id: string)
    requires ProperPpm(ppm) && id in ppm
    ensures SumValues(ppm) == 1_000_000
  {
  }

  lemma {:induction false} MergedOrder(ppm: map<string, int>, hotkey: string, share: real, x: string, y: string)
    requires 0.0 < share < 1.0 && x in ppm && y in ppm && y != hotkey
    ensures var m := Merged(ppm, hotkey, share);
      && x in m && y in m
      && (ppm[x] > ppm[y] || (ppm[x] == ppm[y] && x == hotkey) ==> m[x] > m[y])
      && (ppm[x] == ppm[y] && x != hotkey ==> m[x] == m[y])
  {
    if ppm[x] > ppm[y] {
      EarnedMore(ppm[x], ppm[y], 1.0 - share);
    }
  }

  /** Whoever earned more never ends with fewer, the hotkey aside that got the reserved share on top. */
  lemma {:induction false} ReservedKeepsOrder(a: Allocation, hotkey: string, share: real, x: string, y: string)
    requires ProperPpm(a.ppm) && hotkey != "" && 0.0 < share < 1.0
    requires x in a.ppm && y in a.ppm && y != hotkey && a.ppm[x] >= a.ppm[y]
    ensures Reserved(a, hotkey, share).Success?
    ensures var b := Reserved(a, hotkey, share).value.ppm;
      && x in b && y in b
      && (a.ppm[x] > a.ppm[y] || x == hotkey ==> b[x] >= b[y])
      && (a.ppm[x] == a.ppm[y] && x != hotkey ==> -1 <= b[x] - b[y] <= 1)
  {
    var m := MergedShares(a.ppm, hotkey, share);
    var after := Apportioned(ItemsOf(m)).value;
    ReservedIs(a, hotkey, share, m);
    MergedOrder(a.ppm, hotkey, share, x, y);
    ListedMonotone(m, x, y, after);
  }

  /** Outside the open interval: nothing reserved, nothing left for anybody else, or an error. */
  lemma {:induction false} ReservedOtherwise(a: Allocation, hotkey: string, share: real)
    requires hotkey == "" || share <= 0.0 || share >= 1.0 || a.ppm == map[]
    ensures var r := Reserved(a, hotkey, share);
      && (hotkey == "" || share <= 0.0 ==> r == Success(a))
      && (hotkey != "" && share > 1.0 ==> r == Failure(ShareAboveOne))
      && (hotkey != "" && (share == 1.0 || (0.0 < share < 1.0 && a.ppm == map[])) ==>
            r == Success(Allocation(map[hotkey := 1_000_000], [], a.ranked)))
  {
  }

  // ----- The uid vector -----

  /** The entries whose identifier holds a uid of the subnet. */
  function OnSubnet(ppm: map<string, int>, uidOf: map<string, int>, nUids: nat): map<string, int> {
    map id | id in ppm && id in uidOf && 0 <= uidOf[id] < nUids :: ppm[id]
  }

  /** Of `m`, what belongs to one uid. */
  function AtUid(m: map<string, int>, uidOf: map<string, int>, uid: int): map<string, int> {
    map id | id in m && id in uidOf && uidOf[id] == uid :: m[id]
  }

  lemma {:induction false} PlacedIsOnSubnet(ppm: map<string, int>, uidOf: map<string, int>, nUids: nat)
    requires ProperPpm(ppm)
    ensures var placed, part := PlacedShares(ppm, uidOf, nUids), OnSubnet(ppm, uidOf, nUids);
      && placed.Keys == part.Keys && (forall id :: id in part ==> placed[id] == part[id] as real >= 0.0)
      && Total(placed) == SumValues(part) as real
  {
    AdditiveTotal(PlacedShares(ppm, uidOf, nUids), OnSubnet(ppm, uidOf, nUids), (weight: int) => weight as real);
  }

  /** A million divided among the keys of `m`, each getting its part of `total` to within one ppm. */
  ghost predicate Divides(m: map<string, int>, part: map<string, int>, total: int) {
    && m.Keys == part.Keys && SumValues(m) == 1_000_000
    && total > 0 && forall id :: id in m ==> Near(m[id], part[id] as real / total as real * 1_000_000.0)
  }

  lemma {:induction false} PlacedPart(placed: map<string, real>, part: map<string, int>, total: int)
      returns (m: map<string, int>)
    requires placed.Keys == part.Keys && forall id :: id in part ==> placed[id] == part[id] as real >= 0.0
    requires total > 0 && Total(placed) == total as real
    ensures placed != map[] && Apportioned(ItemsOf(placed)) == Success(m) && Divides(m, part, total)
  {
    assert placed != map[];
    ListedProper(placed);
    m := Apportioned(ItemsOf(placed)).value;
    forall id | id in m ensures Near(m[id], part[id] as real / total as real * 1_000_000.0) {
      ListedNear(placed, id, m);
    }
    var id :| id in placed;
    SumIsMillion(m, id);
  }

  /**
   * With any ppm on the subnet: a million is divided anew among the identifiers that hold a uid, each
   * getting its part of what they hold together to within one ppm, and every uid carries the ppm of
   * the identifiers that hold it.
   */
  lemma {:induction false} VectorCarries(ppm: map<string, int>, uidOf: map<string, int>, nUids: nat)
      returns (m: map<string, int>)
    requires ProperPpm(ppm) && SumValues(OnSubnet(ppm, uidOf, nUids)) > 0
    ensures Divides(m, OnSubnet(ppm, uidOf, nUids), SumValues(OnSubnet(ppm, uidOf, nUids)))
    ensures AsUid(ppm, uidOf, nUids).Success?
    ensures var vector := AsUid(ppm, uidOf, nUids).value;
      |vector| == nUids && forall uid :: 0 <= uid < nUids ==> vector[uid] == SumValues(AtUid(m, uidOf, uid))
  {
    PlacedIsOnSubnet(ppm, uidOf, nUids);
    var part := OnSubnet(ppm, uidOf, nUids);
    m := PlacedPart(PlacedShares(ppm, uidOf, nUids), part, SumValues(part));
    AsUidIs(ppm, uidOf, nUids, m);
    VectorAt(m, uidOf, nUids);
  }

  lemma {:induction false} VectorAt(m: map<string, int>, uidOf: map<string, int>, nUids: nat)
    ensures var vector := UidVector(m, uidOf, nUids);
      |vector| == nUids && forall uid :: 0 <= uid < nUids ==> vector[uid] == SumValues(AtUid(m, uidOf, uid))
  {
    forall uid | 0 <= uid < nUids ensures UidVector(m, uidOf, nUids)[uid] == SumValues(AtUid(m, uidOf, uid)) {
      assert Landing(m, uidOf, uid) == AtUid(m, uidOf, uid);
    }
  }

  /** A hotkey's uid is that of the last neuron with it. */
  lemma {:induction false} UidOfLast(neurons: seq<Neuron>, hotkey: string, i: nat)
    requires i < |neurons| && neurons[i].hotkey == hotkey
    requires forall j :: i < j < |neurons| ==> neurons[j].hotkey != hotkey
    ensures hotkey in UidsOf(neurons) && UidsOf(neurons)[hotkey] == neurons[i].uid
  {
    if i < |neurons| - 1 {
      UidOfLast(neurons[..|neurons| - 1], hotkey, i);
    }
  }

  lemma {:induction false} UidOfNobody(neurons: seq<Neuron>, hotkey: string)
    requires forall i :: 0 <= i < |neurons| ==> neurons[i].hotkey != hotkey
    ensures hotkey !in UidsOf(neurons)
  {
    if neurons != [] {
      UidOfNobody(neurons[..|neurons| - 1], hotkey);
    }
  }

  // ----- What the chain takes -----

  lemma {:induction false} Ascends(vector: seq<int>, i: nat, j: nat)
    requires i < j < |Positive(vector)|
    ensures Positive(vector)[i] < Positive(vector)[j]
  {
    var before := Positive(vector[..|vector| - 1]);
    if j < |before| {
      Ascends(vector[..|vector| - 1], i, j);
    }
  }

  /** What goes out: the uids that hold anything, ascending, each with what it holds. */
  lemma {:induction false} PublishedAscends(vector: seq<int>)
    ensures var uids := Positive(vector);
      && (forall i, j :: 0 <= i < j < |uids| ==> uids[i] < uids[j])
      && (forall uid :: uid in uids <==> 0 <= uid < |vector| && vector[uid] > 0)
      && forall i :: 0 <= i < |uids| ==> WeightsAt(vector, uids)[i] == vector[uids[i]]
  {
    forall i, j | 0 <= i < j < |Positive(vector)| ensures Positive(vector)[i] < Positive(vector)[j] {
      Ascends(vector, i, j);
    }
  }

  /** The chain takes a vector exactly when it is one weight a uid, none negative, a million in all. */
  lemma {:induction false} AcceptedExactly(uids: seq<int>, weights: seq<int>)
    ensures ValidateWeights(uids, weights).Success? <==>
      && |uids| == |weights| > 0
      && (forall i :: 0 <= i < |weights| ==> weights[i] >= 0)
      && SumInt(weights) == 1_000_000
    ensures ValidateWeights(uids, weights) == Failure(LengthsDiffer) <==> |uids| != |weights|
    ensures ValidateWeights(uids, weights) == Failure(EmptyVector) <==> |uids| == |weights| == 0
    ensures ValidateWeights(uids, weights) == Failure(NegativeWeight) <==>
      |uids| == |weights| && exists i :: 0 <= i < |weights| && weights[i] < 0
  {
  }
}
