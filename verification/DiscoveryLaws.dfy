/** src/enclave/validator/discovery.py: exactly who is admitted. */
module DiscoveryLaws {
  import opened Discovery
  import opened Strings
  import opened Wrappers

  /** A candidate with this hotkey was admitted. */
  ghost predicate Joined(f: Found, hotkey: string) {
    exists c :: c in f.candidates && c.hotkey == hotkey && c.admitted
  }

  /** The payment that a reveal points to, if it can be read and points to one. */
  function PaymentIn(terms: Terms, text: string): Option<Proof> {
    var disclosed := terms.parse(text);
    if disclosed.Some? then disclosed.value.payment else None
  }

  /** The hotkey's own payment of the fee, as the chain tells it. */
  ghost predicate Pays(terms: Terms, hotkey: string, text: string) {
    var payment := PaymentIn(terms, text);
    && payment.Some? && terms.reader.Some?
    && Paid(terms.reader.value, payment.value, hotkey, terms.treasury, terms.feeRao)
  }

  /** None of the receipts is for the transfer that the reveal points to. */
  ghost predicate Unspent(terms: Terms, receipts: seq<Receipt>, text: string) {
    var payment := PaymentIn(terms, text);
    payment.Some? ==> forall r :: r in receipts ==> !SameTransfer(r.proof, payment.value)
  }

  /** What it takes to be admitted behind the receipts there are. */
  ghost predicate Qualifies(terms: Terms, receipts: seq<Receipt>, entry: (string, string)) {
    && entry.0 in terms.registered && terms.parse(entry.1).Some?
    && (terms.feeRao > 0 ==> Pays(terms, entry.0, entry.1) && Unspent(terms, receipts, entry.1))
  }

  lemma {:induction false} SpentIsSame(receipts: seq<Receipt>, proof: Proof)
    ensures proof.Key() in Spent(receipts) <==> exists r :: r in receipts && SameTransfer(r.proof, proof)
  {
    if proof.Key() in Spent(receipts) {
      var r :| r in receipts && r.proof.Key() == proof.Key();
      KeyIsPlace(r.proof, proof);
    }
    if r :| r in receipts && SameTransfer(r.proof, proof) {
      assert r.proof.Key() == proof.Key();
    }
  }

  lemma {:induction false} AcceptedIfUnspent(terms: Terms, receipts: seq<Receipt>, entry: (string, string))
    requires PaymentIn(terms, entry.1).Some? && terms.reader.Some?
    ensures VerifyPayment(terms.reader.value, PaymentIn(terms, entry.1).value, entry.0,
                          terms.treasury, terms.feeRao, Spent(receipts)).Success?
      <==> Pays(terms, entry.0, entry.1) && Unspent(terms, receipts, entry.1)
  {
    var proof := PaymentIn(terms, entry.1).value;
    VerifiedExactly(terms.reader.value, proof, entry.0, terms.treasury, terms.feeRao, Spent(receipts));
    SpentIsSame(receipts, proof);
  }

  /** One visit: a candidate for a registered hotkey, admitted exactly if it qualifies. */
  lemma {:induction false} VisitIs(terms: Terms, f: Found, entry: (string, string)) returns (c: Candidate)
    ensures var g := Visit(terms, f, entry);
      && (entry.0 !in terms.registered ==> g == f)
      && (entry.0 in terms.registered ==>
            && g.candidates == f.candidates + [c] && c.hotkey == entry.0
            && (c.admitted <==> Qualifies(terms, f.receipts, entry)) && (c.rejection.None? <==> c.admitted)
            && c.image == (if terms.parse(entry.1).Some? then terms.parse(entry.1).value.image else "")
            && g.receipts == f.receipts + (if c.admitted && terms.feeRao > 0
                                           then [Receipt(entry.0, PaymentIn(terms, entry.1).value)] else []))
  {
    var g := Visit(terms, f, entry);
    if PaymentIn(terms, entry.1).Some? && terms.reader.Some? {
      AcceptedIfUnspent(terms, f.receipts, entry);
    }
    c := if entry.0 in terms.registered then g.candidates[|f.candidates|] else Candidate("", "", false, None);
  }

  // ----- All of them -----

  /** Entries in hotkey order, one a hotkey. */
  ghost predicate ByHotkey(entries: seq<(string, string)>) {
    forall i, j :: 0 <= i < j < |entries| ==> LexLe(entries[i].0, entries[j].0) && entries[i].0 != entries[j].0
  }

  /** The `k`-th entry qualifies behind those before it. */
  ghost predicate QualifiesAt(terms: Terms, entries: seq<(string, string)>, k: nat)
    requires k < |entries|
  {
    Qualifies(terms, Visited(terms, entries[..k]).receipts, entries[k])
  }

  lemma {:induction false} JoinedOneMore(terms: Terms, f: Found, entry: (string, string), hotkey: string)
    ensures Joined(Visit(terms, f, entry), hotkey)
      <==> Joined(f, hotkey) || (hotkey == entry.0 && Qualifies(terms, f.receipts, entry))
  {
    var c := VisitIs(terms, f, entry);
    if entry.0 in terms.registered {
      assert c in f.candidates + [c];
      if Joined(f, hotkey) {
        var d :| d in f.candidates && d.hotkey == hotkey && d.admitted;
        assert d in f.candidates + [c];
      }
    }
  }

  lemma {:induction false} NotYetVisited(terms: Terms, entries: seq<(string, string)>, hotkey: string)
    requires forall k :: 0 <= k < |entries| ==> entries[k].0 != hotkey
    ensures !Joined(Visited(terms, entries), hotkey)
  {
    if entries != [] {
      var n := |entries| - 1;
      NotYetVisited(terms, entries[..n], hotkey);
      JoinedOneMore(terms, Visited(terms, entries[..n]), entries[n], hotkey);
    }
  }

  lemma {:induction false} JoinedAt(terms: Terms, entries: seq<(string, string)>, k: nat)
    requires ByHotkey(entries) && k < |entries|
    ensures Joined(Visited(terms, entries), entries[k].0) <==> QualifiesAt(terms, entries, k)
  {
    var n := |entries| - 1;
    JoinedOneMore(terms, Visited(terms, entries[..n]), entries[n], entries[k].0);
    if k < n {
      JoinedAt(terms, entries[..n], k);
      assert entries[..n][..k] == entries[..k];
    } else {
      NotYetVisited(terms, entries[..n], entries[n].0);
    }
  }

  /** The receipt of the `k`-th entry. */
  ghost predicate ReceiptOf(terms: Terms, entries: seq<(string, string)>, k: nat, r: Receipt)
    requires k < |entries|
  {
    && terms.feeRao > 0 && QualifiesAt(terms, entries, k)
    && r.hotkey == entries[k].0 && Some(r.proof) == PaymentIn(terms, entries[k].1)
  }

  lemma {:induction false} ReceiptOfPrefix(terms: Terms, entries: seq<(string, string)>, n: nat, k: nat, r: Receipt)
    requires k < n <= |entries|
    ensures ReceiptOf(terms, entries[..n], k, r) == ReceiptOf(terms, entries, k, r)
  {
    assert entries[..n][..k] == entries[..k];
  }

  /** The receipts are those of the entries that qualified, and no other. */
  lemma {:induction false} ReceiptsAre(terms: Terms, entries: seq<(string, string)>, r: Receipt)
    ensures r in Visited(terms, entries).receipts
      <==> exists k :: 0 <= k < |entries| && ReceiptOf(terms, entries, k, r)
  {
    if entries != [] {
      var n := |entries| - 1;
      var f := Visited(terms, entries[..n]);
      ReceiptsAre(terms, entries[..n], r);
      var c := VisitIs(terms, f, entries[n]);
      forall k | 0 <= k < n ensures ReceiptOf(terms, entries[..n], k, r) == ReceiptOf(terms, entries, k, r) {
        ReceiptOfPrefix(terms, entries, n, k, r);
      }
      assert r in Visited(terms, entries).receipts <==> r in f.receipts || ReceiptOf(terms, entries, n, r);
      if k :| 0 <= k < |entries[..n]| && ReceiptOf(terms, entries[..n], k, r) {
        assert ReceiptOf(terms, entries, k, r);
      }
    }
  }

  /** An entry before the `k`-th qualified with the transfer that the `k`-th points to. */
  ghost predicate SpentBefore(terms: Terms, entries: seq<(string, string)>, k: nat)
    requires k < |entries|
  {
    exists j ::
      && 0 <= j < k && QualifiesAt(terms, entries, j)
      && SameTransferIn(terms, entries[j].1, entries[k].1)
  }

  /** Both reveals point to one transfer. */
  predicate SameTransferIn(terms: Terms, a: string, b: string) {
    var p, q := PaymentIn(terms, a), PaymentIn(terms, b);
    p.Some? && q.Some? && SameTransfer(p.value, q.value)
  }

  lemma {:induction false} UnspentAt(terms: Terms, entries: seq<(string, string)>, k: nat)
    requires terms.feeRao > 0 && k < |entries| && PaymentIn(terms, entries[k].1).Some?
    ensures Unspent(terms, Visited(terms, entries[..k]).receipts, entries[k].1) <==> !SpentBefore(terms, entries, k)
  {
    var receipts, proof := Visited(terms, entries[..k]).receipts, PaymentIn(terms, entries[k].1).value;
    if r :| r in receipts && SameTransfer(r.proof, proof) {
      ReceiptsAre(terms, entries[..k], r);
      var j :| 0 <= j < k && ReceiptOf(terms, entries[..k], j, r);
      ReceiptOfPrefix(terms, entries, k, j, r);
      assert SameTransferIn(terms, entries[j].1, entries[k].1);
    }
    if j :| 0 <= j < k && QualifiesAt(terms, entries, j) && SameTransferIn(terms, entries[j].1, entries[k].1) {
      var r := Receipt(entries[j].0, PaymentIn(terms, entries[j].1).value);
      assert ReceiptOf(terms, entries, j, r);
      ReceiptOfPrefix(terms, entries, k, j, r);
      ReceiptsAre(terms, entries[..k], r);
    }
  }

  // ----- Who is admitted -----

  ghost predicate Admitted(terms: Terms, raw: map<string, string>, hotkey: string) {
    Joined(Visited(terms, Ordered(raw)), hotkey)
  }

  /** Another hotkey, earlier in the order, was admitted with the same transfer. */
  ghost predicate TakenEarlier(terms: Terms, raw: map<string, string>, hotkey: string)
    requires hotkey in raw
  {
    exists other ::
      && other in raw && other != hotkey && LexLe(other, hotkey)
      && Admitted(terms, raw, other) && SameTransferIn(terms, raw[other], raw[hotkey])
  }

  lemma {:induction false} EntryOf(raw: map<string, string>, hotkey: string) returns (k: nat)
    requires hotkey in raw
    ensures ByHotkey(Ordered(raw)) && k < |Ordered(raw)| && Ordered(raw)[k] == (hotkey, raw[hotkey])
  {
    OrderedEntries(raw);
    assert (hotkey, raw[hotkey]) in Ordered(raw);
    k :| 0 <= k < |Ordered(raw)| && Ordered(raw)[k] == (hotkey, raw[hotkey]);
  }

  lemma {:induction false} SpentIsTaken(terms: Terms, raw: map<string, string>, hotkey: string, k: nat)
    requires hotkey in raw && ByHotkey(Ordered(raw))
    requires k < |Ordered(raw)| && Ordered(raw)[k] == (hotkey, raw[hotkey])
    requires SpentBefore(terms, Ordered(raw), k)
    ensures TakenEarlier(terms, raw, hotkey)
  {
    var entries := Ordered(raw);
    OrderedEntries(raw);
    var j :| 0 <= j < k && QualifiesAt(terms, entries, j) && SameTransferIn(terms, entries[j].1, entries[k].1);
    assert entries[j] in entries;
    JoinedAt(terms, entries, j);
    assert Admitted(terms, raw, entries[j].0);
  }

  lemma {:induction false} TakenIsSpent(terms: Terms, raw: map<string, string>, hotkey: string, k: nat)
    requires hotkey in raw && ByHotkey(Ordered(raw))
    requires k < |Ordered(raw)| && Ordered(raw)[k] == (hotkey, raw[hotkey])
    requires TakenEarlier(terms, raw, hotkey)
    ensures SpentBefore(terms, Ordered(raw), k)
  {
    var other :|
      && other in raw && other != hotkey && LexLe(other, hotkey)
      && Admitted(terms, raw, other) && SameTransferIn(terms, raw[other], raw[hotkey]);
    var j := EntryOf(raw, other);
    JoinedAt(terms, Ordered(raw), j);
    LexTotal(other, hotkey);
    assert j < k;
  }

  /**
   * Who is admitted: without a fee every registered hotkey whose reveal can be read; with one exactly
   * those among them that paid it with a transfer no earlier hotkey was admitted with.
   */
  lemma {:induction false} AdmittedExactly(terms: Terms, raw: map<string, string>, hotkey: string)
    ensures Admitted(terms, raw, hotkey)
      <==> && hotkey in raw && hotkey in terms.registered && terms.parse(raw[hotkey]).Some?
           && (terms.feeRao > 0 ==>
                 Pays(terms, hotkey, raw[hotkey]) && !TakenEarlier(terms, raw, hotkey))
  {
    var entries := Ordered(raw);
    if hotkey in raw {
      var k := EntryOf(raw, hotkey);
      JoinedAt(terms, entries, k);
      if terms.feeRao > 0 && PaymentIn(terms, raw[hotkey]).Some? {
        UnspentAt(terms, entries, k);
        if SpentBefore(terms, entries, k) {
          SpentIsTaken(terms, raw, hotkey, k);
        }
        if TakenEarlier(terms, raw, hotkey) {
          TakenIsSpent(terms, raw, hotkey, k);
        }
      }
    } else {
      OrderedEntries(raw);
      forall k | 0 <= k < |entries| ensures entries[k].0 != hotkey {
        assert entries[k] in entries;
      }
      NotYetVisited(terms, entries, hotkey);
    }
  }
}
