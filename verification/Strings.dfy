/** The little of Python's `str` that the source relies on. */
module Strings {
  import opened Sorting

  /** Python's string order: lexicographic by code point. */
  predicate LexLe(a: string, b: string)
    decreases |a|
  {
    |a| == 0 || (|b| > 0 && (a[0] < b[0] || (a[0] == b[0] && LexLe(a[1..], b[1..]))))
  }

  lemma {:induction false} LexTotal(a: string, b: string)
    ensures LexLe(a, b) || LexLe(b, a)
    ensures LexLe(a, b) && LexLe(b, a) ==> a == b
    decreases |a|
  {
    if |a| > 0 && |b| > 0 && a[0] == b[0] {
      LexTotal(a[1..], b[1..]);
      assert a == [a[0]] + a[1..] && b == [b[0]] + b[1..];
    }
  }

  lemma {:induction false} LexTransitive(a: string, b: string, c: string)
    requires LexLe(a, b) && LexLe(b, c)
    ensures LexLe(a, c)
    decreases |a|
  {
    if |a| > 0 && a[0] == b[0] && b[0] == c[0] {
      LexTransitive(a[1..], b[1..], c[1..]);
    }
  }

  lemma LexOrder()
    ensures TotalOrder(LexLe)
  {
    forall x, y ensures (LexLe(x, y) || LexLe(y, x)) && (LexLe(x, y) && LexLe(y, x) ==> x == y) {
      LexTotal(x, y);
    }
    forall x, y, z | LexLe(x, y) && LexLe(y, z) ensures LexLe(x, z) {
      LexTransitive(x, y, z);
    }
  }

  /** What decides: where two texts first differ the smaller character, and a text comes before what extends it. */
  lemma {:induction false} LexFirstDifference(a: string, b: string, k: nat)
    requires k <= |a| && k <= |b| && a[..k] == b[..k]
    ensures k == |a| ==> LexLe(a, b)
    ensures k < |a| && k == |b| ==> !LexLe(a, b)
    ensures k < |a| && k < |b| && a[k] < b[k] ==> LexLe(a, b)
    ensures k < |a| && k < |b| && a[k] > b[k] ==> !LexLe(a, b)
    decreases k
  {
    if k > 0 {
      assert a[0] == a[..k][0] && b[0] == b[..k][0];
      assert a[1..][..k - 1] == a[..k][1..] && b[1..][..k - 1] == b[..k][1..];
      LexFirstDifference(a[1..], b[1..], k - 1);
    }
  }

  // ----- Sorted sets of strings -----

  predicate Distinct<T(==)>(s: seq<T>) {
    forall i, j :: 0 <= i < j < |s| ==> s[i] != s[j]
  }

  function InsertNew(x: string, s: seq<string>): seq<string> {
    if s == [] then [x]
    else if x == s[0] then s
    else if LexLe(x, s[0]) then [x] + s
    else [s[0]] + InsertNew(x, s[1..])
  }

  /** `sorted(set(names))`. */
  function SortedSet(names: seq<string>): seq<string> {
    if names == [] then [] else InsertNew(names[|names| - 1], SortedSet(names[..|names| - 1]))
  }

  /** Ascending, and therefore without repeats. */
  ghost predicate Ascending(s: seq<string>) { Sorted(s, LexLe) && Distinct(s) }

  lemma {:induction false} InsertNewMembers(x: string, s: seq<string>, y: string)
    ensures y in InsertNew(x, s) <==> y == x || y in s
  {
    if s != [] {
      assert s == [s[0]] + s[1..];
      InsertNewMembers(x, s[1..], y);
    }
  }

  lemma {:induction false} PrependAscending(x: string, s: seq<string>)
    requires Ascending(s) && forall j :: 0 <= j < |s| ==> LexLe(x, s[j]) && x != s[j]
    ensures Ascending([x] + s)
  {
  }

  lemma {:induction false} TailAscending(s: seq<string>)
    requires Ascending(s) && s != []
    ensures Ascending(s[1..])
  {
  }

  lemma {:induction false} InsertNewAscending(x: string, s: seq<string>)
    requires Ascending(s)
    ensures Ascending(InsertNew(x, s))
  {
    if s == [] || x == s[0] {
    } else if LexLe(x, s[0]) {
      forall j | 0 <= j < |s| ensures LexLe(x, s[j]) && x != s[j] {
        if j > 0 {
          LexTransitive(x, s[0], s[j]);
          LexTotal(x, s[0]);
        }
      }
      PrependAscending(x, s);
    } else {
      TailAscending(s);
      InsertNewAscending(x, s[1..]);
      var tail := InsertNew(x, s[1..]);
      LexTotal(x, s[0]);
      forall j | 0 <= j < |tail| ensures LexLe(s[0], tail[j]) && s[0] != tail[j] {
        InsertNewMembers(x, s[1..], tail[j]);
      }
      PrependAscending(s[0], tail);
    }
  }

  lemma {:induction false} SortedSetIs(names: seq<string>)
    ensures Ascending(SortedSet(names))
    ensures forall x :: x in SortedSet(names) <==> x in names
  {
    if names != [] {
      var n := |names| - 1;
      SortedSetIs(names[..n]);
      InsertNewAscending(names[n], SortedSet(names[..n]));
      forall x ensures x in SortedSet(names) <==> x in names {
        InsertNewMembers(names[n], SortedSet(names[..n]), x);
        assert names == names[..n] + [names[n]];
      }
    }
  }

  // ----- Strings that part ways -----

  /** Two strings differ at a position both have. */
  predicate Diverge(p: string, q: string)
    decreases |p|
  {
    |p| > 0 && |q| > 0 && (p[0] != q[0] || Diverge(p[1..], q[1..]))
  }

  /** Once two prefixes have diverged, what follows cannot change the order. */
  lemma {:induction false} DivergedOrder(p: string, x: string, q: string, y: string)
    requires Diverge(p, q)
    ensures LexLe(p + x, q + y) == LexLe(p, q)
    ensures p + x != q + y
    decreases |p|
  {
    assert (p + x)[0] == p[0] && (q + y)[0] == q[0];
    assert (p + x)[1..] == p[1..] + x && (q + y)[1..] == q[1..] + y;
    if p[0] == q[0] {
      DivergedOrder(p[1..], x, q[1..], y);
    }
  }

  lemma {:induction false} DivergeExtends(p: string, x: string, q: string, y: string)
    requires Diverge(p, q)
    ensures Diverge(p + x, q + y)
    decreases |p|
  {
    assert (p + x)[1..] == p[1..] + x && (q + y)[1..] == q[1..] + y;
    if p[0] == q[0] {
      DivergeExtends(p[1..], x, q[1..], y);
    }
  }

  lemma {:induction false} DivergeBehind(c: string, p: string, q: string)
    requires Diverge(p, q)
    ensures Diverge(c + p, c + q)
    decreases |c|
  {
    if c == [] {
      assert c + p == p && c + q == q;
    } else {
      assert (c + p)[1..] == c[1..] + p && (c + q)[1..] == c[1..] + q;
      DivergeBehind(c[1..], p, q);
    }
  }

  /** Different words closed by a character neither contains diverge there at the latest. */
  lemma {:induction false} TerminatedDiverge(p: string, q: string, stop: char)
    requires p != q && stop !in p && stop !in q
    ensures Diverge(p + [stop], q + [stop])
    decreases |p|
  {
    if p == [] {
      assert q != [] && q[0] in q;
    } else if q == [] {
      assert p[0] in p;
    } else {
      assert (p + [stop])[1..] == p[1..] + [stop] && (q + [stop])[1..] == q[1..] + [stop];
      if p[0] == q[0] {
        assert p == [p[0]] + p[1..] && q == [q[0]] + q[1..];
        TerminatedDiverge(p[1..], q[1..], stop);
      }
    }
  }

  /** `part in whole`. */
  predicate Contains(whole: string, part: string) {
    exists i :: 0 <= i <= |whole| - |part| && OccursAt(whole, part, i)
  }

  predicate OccursAt(whole: string, part: string, i: int) {
    0 <= i <= |whole| - |part| && whole[i..i + |part|] == part
  }

  /** `separator.join(parts)` for a one-character separator. */
  function Join(parts: seq<string>, separator: char): string {
    if parts == [] then ""
    else if |parts| == 1 then parts[0]
    else Join(parts[..|parts| - 1], separator) + [separator] + parts[|parts| - 1]
  }

  lemma ContainsBehind(a: string, b: string, t: string)
    requires Contains(b, t)
    ensures Contains(a + b, t)
  {
    var i :| 0 <= i <= |b| - |t| && OccursAt(b, t, i);
    assert (a + b)[|a| + i..|a| + i + |t|] == b[i..i + |t|];
    assert OccursAt(a + b, t, |a| + i);
  }

  lemma ContainsAhead(a: string, b: string, t: string)
    requires Contains(a, t)
    ensures Contains(a + b, t)
  {
    var i :| 0 <= i <= |a| - |t| && OccursAt(a, t, i);
    assert (a + b)[i..i + |t|] == a[i..i + |t|];
    assert OccursAt(a + b, t, i);
  }

  /** A term without the separator occurs on one side of it or on the other. */
  lemma ContainsSplit(a: string, stop: char, b: string, t: string)
    requires t != "" && stop !in t
    ensures Contains(a + [stop] + b, t) <==> Contains(a, t) || Contains(b, t)
  {
    var whole := a + [stop] + b;
    if Contains(a, t) {
      ContainsAhead(a, [stop] + b, t);
      assert whole == a + ([stop] + b);
    }
    if Contains(b, t) {
      ContainsBehind(a + [stop], b, t);
    }
    if Contains(whole, t) {
      var i :| 0 <= i <= |whole| - |t| && OccursAt(whole, t, i);
      OccursAside(a, stop, b, t, i);
    }
  }

  lemma OccursChar(whole: string, t: string, i: nat, k: nat)
    requires OccursAt(whole, t, i) && k < |t|
    ensures whole[i + k] == t[k]
  {
    assert whole[i..i + |t|][k] == whole[i + k];
  }

  lemma OccursAside(a: string, stop: char, b: string, t: string, i: nat)
    requires t != "" && stop !in t && OccursAt(a + [stop] + b, t, i)
    ensures Contains(a, t) || Contains(b, t)
  {
    var whole := a + [stop] + b;
    if i + |t| <= |a| {
      assert a[i..i + |t|] == whole[i..i + |t|];
      assert OccursAt(a, t, i);
    } else if i > |a| {
      var j := i - |a| - 1;
      assert b[j..j + |t|] == whole[i..i + |t|];
      assert OccursAt(b, t, j);
    } else {
      OccursChar(whole, t, i, |a| - i);
      assert false;
    }
  }

  lemma {:induction false} ContainsJoin(parts: seq<string>, separator: char, t: string)
    requires t != "" && separator !in t
    ensures Contains(Join(parts, separator), t) <==> exists p :: p in parts && Contains(p, t)
  {
    if |parts| > 1 {
      var rest := parts[..|parts| - 1];
      ContainsJoin(rest, separator, t);
      ContainsSplit(Join(rest, separator), separator, parts[|parts| - 1], t);
      assert parts == rest + [parts[|parts| - 1]];
    }
  }

  lemma ContainsTransitive(a: string, b: string, c: string)
    requires Contains(a, b) && Contains(b, c)
    ensures Contains(a, c)
  {
    var i :| 0 <= i <= |a| - |b| && OccursAt(a, b, i);
    assert a == a[..i] + b + a[i + |b|..];
    ContainsBehind(a[..i], b, c);
    ContainsAhead(a[..i] + b, a[i + |b|..], c);
  }

  lemma ContainsItself(a: string)
    ensures Contains(a, a)
  {
    assert OccursAt(a, a, 0);
  }

  /** Every part is found in the whole. */
  lemma {:induction false} JoinContainsPart(parts: seq<string>, separator: char, p: string)
    requires p in parts
    ensures Contains(Join(parts, separator), p)
  {
    var n := |parts| - 1;
    if p == parts[n] {
      ContainsItself(p);
      if n > 0 {
        ContainsBehind(Join(parts[..n], separator) + [separator], p, p);
      }
    } else {
      assert parts == parts[..n] + [parts[n]];
      JoinContainsPart(parts[..n], separator, p);
      assert Join(parts, separator) == Join(parts[..n], separator) + ([separator] + parts[n]);
      ContainsAhead(Join(parts[..n], separator), [separator] + parts[n], p);
    }
  }

  /** `casefold` of ASCII text. */
  function FoldChar(c: char): char {
    if 'A' <= c <= 'Z' then (c as int - 'A' as int + 'a' as int) as char else c
  }

  function Fold(s: string): (r: string)
    ensures |r| == |s| && forall i :: 0 <= i < |s| ==> r[i] == FoldChar(s[i])
  {
    seq(|s|, i requires 0 <= i < |s| => FoldChar(s[i]))
  }

  lemma FoldConcat(a: string, b: string)
    ensures Fold(a + b) == Fold(a) + Fold(b)
  {
  }

  lemma {:induction false} FoldJoin(parts: seq<string>, separator: char)
    requires FoldChar(separator) == separator
    ensures Fold(Join(parts, separator)) == Join(Map(parts, Fold), separator)
  {
    if |parts| > 1 {
      var rest := parts[..|parts| - 1];
      FoldJoin(rest, separator);
      assert Map(parts, Fold)[..|parts| - 1] == Map(rest, Fold);
      FoldConcat(Join(rest, separator) + [separator], parts[|parts| - 1]);
      FoldConcat(Join(rest, separator), [separator]);
    }
  }

  // ----- Stripping -----

  /** What `str.strip` takes for white space. */
  predicate IsSpace(c: char) {
    || '\U{0009}' <= c <= '\U{000d}' || '\U{001c}' <= c <= '\U{0020}' || c == '\U{0085}' || c == '\U{00a0}'
    || c == '\U{1680}' || '\U{2000}' <= c <= '\U{200a}' || c == '\U{2028}' || c == '\U{2029}'
    || c == '\U{202f}' || c == '\U{205f}' || c == '\U{3000}'
  }

  function StripLeft(s: string): string {
    if s != "" && IsSpace(s[0]) then StripLeft(s[1..]) else s
  }

  function StripRight(s: string): string {
    if s != "" && IsSpace(s[|s| - 1]) then StripRight(s[..|s| - 1]) else s
  }

  function Strip(s: string): string { StripRight(StripLeft(s)) }

  predicate Blank(s: string) { forall i :: 0 <= i < |s| ==> IsSpace(s[i]) }

  /** Text that stripping leaves alone, and that is not empty. */
  predicate Bare(s: string) { s != "" && !IsSpace(s[0]) && !IsSpace(s[|s| - 1]) }

  lemma {:induction false} StripLeftIs(a: string, s: string)
    requires Blank(a) && s != "" && !IsSpace(s[0])
    ensures StripLeft(a + s) == s
  {
    if a == "" {
      assert a + s == s;
    } else {
      assert (a + s)[1..] == a[1..] + s;
      StripLeftIs(a[1..], s);
    }
  }

  lemma {:induction false} StripRightIs(s: string, b: string)
    requires Blank(b) && s != "" && !IsSpace(s[|s| - 1])
    ensures StripRight(s + b) == s
  {
    if b == "" {
      assert s + b == s;
    } else {
      assert (s + b)[..|s + b| - 1] == s + b[..|b| - 1];
      StripRightIs(s, b[..|b| - 1]);
    }
  }

  /** Stripping takes off what surrounds bare text, and nothing of it. */
  lemma StripIs(a: string, s: string, b: string)
    requires Blank(a) && Blank(b) && Bare(s)
    ensures Strip(a + s + b) == s
  {
    assert a + s + b == a + (s + b);
    StripLeftIs(a, s + b);
    StripRightIs(s, b);
  }

  // ----- Decimal digits -----

  function Digit(d: nat): char
    requires d < 10
  {
    "0123456789"[d]
  }

  /** `str(n)` of a non-negative integer. */
  function Decimal(n: nat): (s: string)
    ensures |s| > 0
  {
    if n < 10 then [Digit(n)] else Decimal(n / 10) + [Digit(n % 10)]
  }

  /** The number a string of digits denotes. */
  function ValueOf(s: string): int {
    if s == [] then 0 else 10 * ValueOf(s[..|s| - 1]) + (s[|s| - 1] as int - '0' as int)
  }

  lemma {:induction false} DecimalValue(n: nat)
    ensures ValueOf(Decimal(n)) == n
  {
    if n < 10 {
      assert Decimal(n)[..0] == [];
    } else {
      DecimalValue(n / 10);
      assert Decimal(n)[..|Decimal(n)| - 1] == Decimal(n / 10);
    }
  }

  lemma {:induction false} LeadingZero(s: string)
    ensures ValueOf("0" + s) == ValueOf(s)
  {
    if s == [] {
      assert "0" + s == "0";
      assert "0"[..0] == [];
    } else {
      LeadingZero(s[..|s| - 1]);
      assert ("0" + s)[..|s|] == "0" + s[..|s| - 1];
    }
  }

  lemma DecimalInjective(m: nat, n: nat)
    requires Decimal(m) == Decimal(n)
    ensures m == n
  {
    DecimalValue(m);
    DecimalValue(n);
  }
}
