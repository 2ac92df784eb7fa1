/** src/enclave/ledger/store.py: what a verified chain proves, and what every operation keeps. */
module LedgerLaws {
  import opened Json
  import opened Ledgers
  import opened Wrappers

  // ----- Verification is link by link, and append keeps it -----

  lemma IntactPrefix(h: Hashing, chain: seq<ChainedRecord>, k: nat)
    requires k <= |chain| && Intact(h, chain)
    ensures Intact(h, chain[..k])
  {
    forall i | 0 <= i < k
      ensures chain[..k][i].previous == Tip(chain[..k][..i]) && LinkHolds(h, chain[..k][i])
    {
      assert chain[..k][..i] == chain[..i];
    }
  }

  lemma IntactOneMore(h: Hashing, chain: seq<ChainedRecord>, c: ChainedRecord)
    ensures Intact(h, chain + [c]) <==> Intact(h, chain) && c.previous == Tip(chain) && LinkHolds(h, c)
  {
    var longer := chain + [c];
    assert longer[..|chain|] == chain;
    if Intact(h, longer) {
      IntactPrefix(h, longer, |chain|);
      assert longer[|chain|] == c;
    }
    if Intact(h, chain) && c.previous == Tip(chain) && LinkHolds(h, c) {
      forall i | 0 <= i < |longer| ensures longer[i].previous == Tip(longer[..i]) && LinkHolds(h, longer[i]) {
        if i < |chain| {
          assert longer[..i] == chain[..i];
        }
      }
    }
  }

  /** On lines that decode, `verify` is true exactly when every link holds. */
  lemma {:induction false} VerifyIsIntact(h: Hashing, lines: seq<Json>)
    requires Decoded(h.codec, lines).Success?
    ensures Checked(h, lines) == Success(Intact(h, Decoded(h.codec, lines).value))
  {
    if lines != [] {
      var before := lines[..|lines| - 1];
      VerifyIsIntact(h, before);
      IntactOneMore(h, Decoded(h.codec, before).value, DecodeLine(h.codec, lines[|lines| - 1]).value);
    }
  }

  /** What `append` stores for a record at the end of `lines`. */
  function NextRecord(h: Hashing, lines: seq<Json>, r: Entry): ChainedRecord {
    ChainedRecord(r, TipOf(h, lines), ComputeLink(h, TipOf(h, lines), r))
  }

  /** Appending to a verified chain, the stored line being read back, leaves a verified chain. */
  lemma AppendKeepsVerified(h: Hashing, lines: seq<Json>, r: Entry)
    requires Faithful(h.codec) && ValidEntry(r) && Checked(h, lines) == Success(true)
    ensures Decoded(h.codec, lines).Success?
    ensures var next := NextRecord(h, lines, r);
            var longer := lines + [EncodeLine(h.codec, next)];
      && Checked(h, longer) == Success(true)
      && Decoded(h.codec, longer) == Success(Decoded(h.codec, lines).value + [next])
      && TipOf(h, longer) == next.link
  {
    var next := NextRecord(h, lines, r);
    CheckedDecodes(h, lines);
    LineRoundTrip(h.codec, next);
    CheckedOneMore(h, lines, EncodeLine(h.codec, next), next);
  }

  lemma CheckedOneMore(h: Hashing, lines: seq<Json>, line: Json, next: ChainedRecord)
    requires Checked(h, lines) == Success(true) && Decoded(h.codec, lines).Success?
    requires DecodeLine(h.codec, line) == Success(next)
    requires next.previous == TipOf(h, lines) && LinkHolds(h, next)
    ensures Checked(h, lines + [line]) == Success(true)
    ensures Decoded(h.codec, lines + [line]) == Success(Decoded(h.codec, lines).value + [next])
    ensures TipOf(h, lines + [line]) == next.link
  {
    assert (lines + [line])[..|lines|] == lines;
  }

  /** Any prefix of a verified chain is verified: truncation shows only against a known tip. */
  lemma {:induction false} PrefixVerifies(h: Hashing, lines: seq<Json>, k: nat)
    requires k <= |lines| && Checked(h, lines) == Success(true)
    ensures Checked(h, lines[..k]) == Success(true)
  {
    if Checked(h, lines[..k]) != Success(true) {
      CheckStops(h, lines, k);
    }
  }

  // ----- Whole runs -----

  datatype Operation = Open(header: RoundHeader) | Append(roundId: string, record: Entry)

  function After(h: Hashing, digest: RoundHeader -> string, s: Store, op: Operation): Store {
    match op
    case Open(header) => Opened(digest, s, header).0
    case Append(id, r) => Appended(h, s, id, r).0
  }

  function AfterAll(h: Hashing, digest: RoundHeader -> string, s: Store, ops: seq<Operation>): Store {
    if ops == [] then s
    else After(h, digest, AfterAll(h, digest, s, ops[..|ops| - 1]), ops[|ops| - 1])
  }

  /** Every round verifies. */
  ghost predicate AllVerify(h: Hashing, s: Store) {
    forall id :: id in s.lines ==> Checked(h, s.lines[id]) == Success(true)
  }

  /** Headers stay as they are and stored lines are only added to. */
  ghost predicate Extends(s: Store, t: Store) {
    && (forall id :: id in s.headers ==> id in t.headers && t.headers[id] == s.headers[id])
    && (forall id :: id in s.lines ==> id in t.lines && s.lines[id] <= t.lines[id])
  }

  lemma AppendKeeps(h: Hashing, s: Store, id: string, r: Entry)
    requires Faithful(h.codec) && AllVerify(h, s) && ValidEntry(r)
    ensures AllVerify(h, Appended(h, s, id, r).0)
  {
    assert Checked(h, LinesIn(s, id)) == Success(true);
    AppendKeepsVerified(h, LinesIn(s, id), r);
  }

  /** Over every run of operations each round stays verified, no header changes and no line is lost. */
  lemma {:induction false} RunKeeps(h: Hashing, digest: RoundHeader -> string, s: Store, ops: seq<Operation>)
    requires Faithful(h.codec) && AllVerify(h, s)
    requires forall op :: op in ops && op.Append? ==> ValidEntry(op.record)
    ensures AllVerify(h, AfterAll(h, digest, s, ops))
    ensures Extends(s, AfterAll(h, digest, s, ops))
  {
    if ops != [] {
      var before := AfterAll(h, digest, s, ops[..|ops| - 1]);
      var op := ops[|ops| - 1];
      RunKeeps(h, digest, s, ops[..|ops| - 1]);
      if op.Append? {
        AppendKeeps(h, before, op.roundId, op.record);
      }
      StepExtends(h, digest, before, op);
      ExtendsTransitive(s, before, AfterAll(h, digest, s, ops));
    }
  }

  lemma StepExtends(h: Hashing, digest: RoundHeader -> string, s: Store, op: Operation)
    ensures Extends(s, After(h, digest, s, op))
  {
  }

  lemma ExtendsTransitive(a: Store, b: Store, c: Store)
    requires Extends(a, b) && Extends(b, c)
    ensures Extends(a, c)
  {
    forall id | id in a.lines ensures id in c.lines && a.lines[id] <= c.lines[id] {
      assert a.lines[id] <= b.lines[id] && b.lines[id] <= c.lines[id];
    }
  }

  // ----- Tamper evidence -----

  /** What two verified chains with one tip amount to. */
  datatype Evidence =
    | Same
    | Collision(x: string, y: string)
    | GenesisPreimage(x: string)

  ghost predicate Breaks(h: Hashing, e: Evidence) {
    match e
    case Same => true
    case Collision(x, y) => x != y && h.hash(x) == h.hash(y)
    case GenesisPreimage(x) => h.hash(x) == GENESIS
  }

  lemma JoinedApart(p: string, d: string, q: string, e: string)
    requires |p| == |q| && p + "\0" + d == q + "\0" + e
    ensures p == q && d == e
  {
    assert p == (p + "\0" + d)[..|p|] && q == (q + "\0" + e)[..|q|];
    assert d == (p + "\0" + d)[|p| + 1..] && e == (q + "\0" + e)[|q| + 1..];
  }

  lemma TipLength(h: Hashing, chain: seq<ChainedRecord>)
    requires Usual(h) && Intact(h, chain)
    ensures |Tip(chain)| == 64
  {
    if chain != [] {
      assert LinkHolds(h, chain[|chain| - 1]);
    }
  }

  lemma LastOf(h: Hashing, chain: seq<ChainedRecord>)
    requires Intact(h, chain) && chain != []
    ensures var n := |chain| - 1;
      && Intact(h, chain[..n]) && chain[n].previous == Tip(chain[..n])
      && Tip(chain) == h.hash(LinkInput(h, chain[n].previous, chain[n].record))
  {
    IntactPrefix(h, chain, |chain| - 1);
    assert LinkHolds(h, chain[|chain| - 1]);
  }

  ghost predicate SameDigests(h: Hashing, a: seq<ChainedRecord>, b: seq<ChainedRecord>) {
    |a| == |b| && forall i :: 0 <= i < |a| ==> Digest(h, a[i].record) == Digest(h, b[i].record)
  }

  /**
   * Two verified chains with the same tip hold the same record digests in the same order, or the
   * proof hands over two texts with one hash, or a text whose hash is the genesis link.
   */
  lemma {:induction false} SameTipSameDigests(h: Hashing, a: seq<ChainedRecord>, b: seq<ChainedRecord>)
      returns (e: Evidence)
    requires Usual(h) && Intact(h, a) && Intact(h, b) && Tip(a) == Tip(b)
    ensures Breaks(h, e)
    ensures e.Same? ==> SameDigests(h, a, b)
  {
    if a == [] && b == [] {
      e := Same;
    } else if a == [] {
      LastOf(h, b);
      e := GenesisPreimage(LinkInput(h, b[|b| - 1].previous, b[|b| - 1].record));
    } else if b == [] {
      LastOf(h, a);
      e := GenesisPreimage(LinkInput(h, a[|a| - 1].previous, a[|a| - 1].record));
    } else {
      e := LastLinks(h, a, b);
      if e.Same? {
        e := SameTipSameDigests(h, a[..|a| - 1], b[..|b| - 1]);
        if e.Same? {
          DigestsOneMore(h, a, b);
        }
      }
    }
  }

  /** Equal links are of equal predecessors and digests, or collide. */
  lemma LastLinks(h: Hashing, a: seq<ChainedRecord>, b: seq<ChainedRecord>) returns (e: Evidence)
    requires Usual(h) && Intact(h, a) && Intact(h, b) && a != [] && b != [] && Tip(a) == Tip(b)
    ensures Breaks(h, e) && !e.GenesisPreimage?
    ensures e.Same? ==>
      && Intact(h, a[..|a| - 1]) && Intact(h, b[..|b| - 1]) && Tip(a[..|a| - 1]) == Tip(b[..|b| - 1])
      && Digest(h, a[|a| - 1].record) == Digest(h, b[|b| - 1].record)
  {
    var p, q := a[|a| - 1], b[|b| - 1];
    LastOf(h, a);
    LastOf(h, b);
    var x, y := LinkInput(h, p.previous, p.record), LinkInput(h, q.previous, q.record);
    if x != y {
      e := Collision(x, y);
    } else {
      TipLength(h, a[..|a| - 1]);
      TipLength(h, b[..|b| - 1]);
      JoinedApart(p.previous, Digest(h, p.record), q.previous, Digest(h, q.record));
      e := Same;
    }
  }

  lemma DigestsOneMore(h: Hashing, a: seq<ChainedRecord>, b: seq<ChainedRecord>)
    requires a != [] && b != [] && SameDigests(h, a[..|a| - 1], b[..|b| - 1])
    requires Digest(h, a[|a| - 1].record) == Digest(h, b[|b| - 1].record)
    ensures SameDigests(h, a, b)
  {
    forall i | 0 <= i < |a| ensures Digest(h, a[i].record) == Digest(h, b[i].record) {
      if i < |a| - 1 {
        assert a[..|a| - 1][i] == a[i] && b[..|b| - 1][i] == b[i];
      }
    }
  }

  /** The canonical text of a tree determines the tree. */
  ghost predicate OneTextPerTree(h: Hashing) {
    forall t, u :: h.render(t) == h.render(u) ==> t == u
  }

  /** Records of equal digest are equal, or their texts collide; texts being one per tree. */
  lemma SameDigestSameRecord(h: Hashing, r: Entry, s: Entry) returns (e: Evidence)
    requires Faithful(h.codec) && ValidEntry(r) && ValidEntry(s) && Digest(h, r) == Digest(h, s)
    requires OneTextPerTree(h)
    ensures Breaks(h, e) && !e.GenesisPreimage?
    ensures e.Same? ==> r == s
  {
    var x, y := DigestInput(h, r), DigestInput(h, s);
    if x != y {
      e := Collision(x, y);
    } else {
      e := Same;
      JoinedApart(INSTANCE_DOMAIN, h.render(EncodeEntry(h.codec, r)),
                  INSTANCE_DOMAIN, h.render(EncodeEntry(h.codec, s)));
      EntryRoundTrip(h.codec, r);
      EntryRoundTrip(h.codec, s);
    }
  }

  /** Tamper evidence for whole chains: against a known tip no record can be changed, dropped, added or moved. */
  lemma TamperEvidence(h: Hashing, a: seq<ChainedRecord>, b: seq<ChainedRecord>) returns (e: Evidence)
    requires Usual(h) && Intact(h, a) && Intact(h, b) && Tip(a) == Tip(b)
    requires forall i :: 0 <= i < |a| ==> ValidEntry(a[i].record)
    requires forall i :: 0 <= i < |b| ==> ValidEntry(b[i].record)
    requires OneTextPerTree(h)
    ensures Breaks(h, e)
    ensures e.Same? ==> |a| == |b| && forall i :: 0 <= i < |a| ==> a[i].record == b[i].record
  {
    e := SameTipSameDigests(h, a, b);
    if e.Same? {
      var k := FirstDifference(a, b);
      if k < |a| {
        e := SameDigestSameRecord(h, a[k].record, b[k].record);
      }
    }
  }

  lemma {:induction false} FirstDifference(a: seq<ChainedRecord>, b: seq<ChainedRecord>) returns (k: nat)
    requires |a| == |b|
    ensures k <= |a| && forall i :: 0 <= i < k ==> a[i].record == b[i].record
    ensures k < |a| ==> a[k].record != b[k].record
  {
    k := 0;
    while k < |a| && a[k].record == b[k].record
      invariant k <= |a| && forall i :: 0 <= i < k ==> a[i].record == b[i].record
    {
      k := k + 1;
    }
  }
}
