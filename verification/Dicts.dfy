/** Listing a dictionary's items. The source's results never depend on the order, so any will do. */
module Dicts {

  ghost predicate Enumerates<V>(items: seq<(string, V)>, m: map<string, V>) {
    && (forall i, j :: 0 <= i < j < |items| ==> items[i].0 != items[j].0)
    && (forall i :: 0 <= i < |items| ==> items[i].0 in m && m[items[i].0] == items[i].1)
    && (forall k :: k in m ==> (k, m[k]) in items)
  }

  ghost function ItemsOf<V>(m: map<string, V>): (items: seq<(string, V)>)
    ensures Enumerates(items, m)
    decreases m.Keys
  {
    if m == map[] then [] else
      var k :| k in m;
      var rest := m - {k};
      assert rest.Keys < m.Keys;
      var items := ItemsOf(rest) + [(k, m[k])];
      assert forall j :: j in m && j != k ==> (j, rest[j]) in ItemsOf(rest);
      assert items[|items| - 1] == (k, m[k]);
      items
  }

  method Items<V>(m: map<string, V>) returns (items: seq<(string, V)>)
    ensures Enumerates(items, m)
  {
    items := [];
    var left := m.Keys;
    while left != {}
      invariant left <= m.Keys
      invariant forall i, j :: 0 <= i < j < |items| ==> items[i].0 != items[j].0
      invariant forall i :: 0 <= i < |items| ==>
        items[i].0 in m && items[i].0 !in left && m[items[i].0] == items[i].1
      invariant forall k :: k in m && k !in left ==> (k, m[k]) in items
      decreases left
    {
      var k :| k in left;
      var more := items + [(k, m[k])];
      assert more[|items|] == (k, m[k]);
      items, left := more, left - {k};
    }
  }

  /** Two listings of one dictionary are rearrangements of each other. */
  lemma {:induction false} ListingsAgree<V>(a: seq<(string, V)>, b: seq<(string, V)>, m: map<string, V>)
    requires Enumerates(a, m) && Enumerates(b, m)
    ensures multiset(a) == multiset(b)
  {
    forall x ensures multiset(a)[x] == multiset(b)[x] {
      OccursOnce(a, m, x);
      OccursOnce(b, m, x);
    }
  }

  lemma OccursOnce<V>(items: seq<(string, V)>, m: map<string, V>, x: (string, V))
    requires Enumerates(items, m)
    ensures multiset(items)[x] == if x.0 in m && m[x.0] == x.1 then 1 else 0
  {
    if x in items {
      var i :| 0 <= i < |items| && items[i] == x;
      assert items == items[..i] + ([x] + items[i + 1..]);
      assert x !in items[..i];
      assert x !in items[i + 1..];
    } else {
      assert x !in multiset(items);
    }
  }
}
