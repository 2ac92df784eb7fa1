/** src/enclave/chain/payment.py and src/enclave/validator/discovery.py: who paid to take part. */
module Discovery {
  import opened Dicts
  import opened Sorting
  import opened Strings
  import opened Sums
  import opened Wrappers

  datatype PaymentProof = PaymentProof(blockHash: string, blockNumber: int, extrinsicIndex: int)
  {
    function Key(): string
      requires extrinsicIndex >= 0
    {
      blockHash + ":" + Decimal(extrinsicIndex)
    }
  }

  predicate HexDigit(c: char) { '0' <= c <= '9' || 'a' <= c <= 'f' }

  /** `^0x[0-9a-f]{64}$`; the dollar also matches before one final newline. */
  predicate BlockHash(s: string) {
    && (|s| == 66 || (|s| == 67 && s[66] == '\n'))
    && s[0] == '0' && s[1] == 'x' && forall k :: 2 <= k < 66 ==> HexDigit(s[k])
  }

  predicate Base58(c: char) {
    || '1' <= c <= '9' || ('A' <= c <= 'Z' && c != 'I' && c != 'O') || ('a' <= c <= 'z' && c != 'l')
  }

  predicate Ss58(s: string) {
    var body := if s != "" && s[|s| - 1] == '\n' then s[..|s| - 1] else s;
    47 <= |body| <= 48 && forall k :: 0 <= k < |body| ==> Base58(body[k])
  }

  /** What the proof's constructor enforces. */
  predicate ValidProof(p: PaymentProof) {
    BlockHash(p.blockHash) && p.blockNumber >= 0 && p.extrinsicIndex >= 0
  }

  type Proof = p: PaymentProof | ValidProof(p) witness
    PaymentProof("0x00000000000000000000000000000000" + "00000000000000000000000000000000", 0, 0)

  datatype Transfer = Transfer(sender: string, destination: string, amountRao: int, call: string, succeeded: bool)

  /** What the chain answers. */
  datatype Reader = Reader(
    canonicalBlockHash: int -> string,
    transferAt: (string, int) -> Option<Transfer>,
    coldkeyOf: (string, string) -> Option<string>)

  datatype Rejection =
    | UnreadableReveal | NoPaymentProof | NoPaymentReader
    | TreasuryNotSs58 | AlreadyUsed | NotCanonical | NoExtrinsic | NotSucceeded
    | WrongCall | WrongDestination | WrongAmount | NoOwner | NotTheOwner

  const KEEP_ALIVE := "Balances.transfer_keep_alive"

  /** `verify_payment`: the checks in the source's order. */
  function VerifyPayment(
      reader: Reader, proof: Proof, hotkey: string, treasury: string, amountRao: int, spent: set<string>):
    Result<Transfer, Rejection>
  {
    if !Ss58(treasury) then Failure(TreasuryNotSs58)
    else if proof.Key() in spent then Failure(AlreadyUsed)
    else if reader.canonicalBlockHash(proof.blockNumber) != proof.blockHash then Failure(NotCanonical)
    else
      var found := reader.transferAt(proof.blockHash, proof.extrinsicIndex);
      if found.None? then Failure(NoExtrinsic)
      else if !found.value.succeeded then Failure(NotSucceeded)
      else if found.value.call != KEEP_ALIVE then Failure(WrongCall)
      else if found.value.destination != treasury then Failure(WrongDestination)
      else if found.value.amountRao != amountRao then Failure(WrongAmount)
      else
        var owner := reader.coldkeyOf(hotkey, proof.blockHash);
        if owner.None? then Failure(NoOwner)
        else if owner.value != found.value.sender then Failure(NotTheOwner)
        else Success(found.value)
  }

  /** The fee was paid: in a canonical block, by the hotkey's owner, to the treasury, exactly. */
  ghost predicate Paid(reader: Reader, proof: PaymentProof, hotkey: string, treasury: string, amountRao: int) {
    var found := reader.transferAt(proof.blockHash, proof.extrinsicIndex);
    && Ss58(treasury) && reader.canonicalBlockHash(proof.blockNumber) == proof.blockHash
    && found.Some? && found.value.succeeded && found.value.call == KEEP_ALIVE
    && found.value.destination == treasury && found.value.amountRao == amountRao
    && reader.coldkeyOf(hotkey, proof.blockHash) == Some(found.value.sender)
  }

  /** A payment is accepted exactly when it was made and is not already spent. */
  lemma VerifiedExactly(
      reader: Reader, proof: Proof, hotkey: string, treasury: string, amountRao: int, spent: set<string>)
    ensures VerifyPayment(reader, proof, hotkey, treasury, amountRao, spent).Success?
      <==> Paid(reader, proof, hotkey, treasury, amountRao) && proof.Key() !in spent
  {
  }

  /** Proofs of different transfers have different keys. */
  lemma KeyIsPlace(p: Proof, q: Proof)
    requires p.Key() == q.Key()
    ensures p.blockHash == q.blockHash && p.extrinsicIndex == q.extrinsicIndex
  {
    NoColon(p.blockHash);
    NoColon(q.blockHash);
    if p.blockHash != q.blockHash {
      TerminatedDiverge(p.blockHash, q.blockHash, ':');
      DivergedOrder(p.blockHash + [':'], Decimal(p.extrinsicIndex), q.blockHash + [':'], Decimal(q.extrinsicIndex));
    } else {
      var n := |p.blockHash| + 1;
      assert p.Key()[n..] == Decimal(p.extrinsicIndex) && q.Key()[n..] == Decimal(q.extrinsicIndex);
      DecimalInjective(p.extrinsicIndex, q.extrinsicIndex);
    }
  }

  lemma NoColon(s: string)
    requires BlockHash(s)
    ensures ':' !in s
  {
    forall k | 0 <= k < |s| ensures s[k] != ':' {
      if 2 <= k < 66 {
        assert HexDigit(s[k]);
      }
    }
  }

  // ----- Candidates -----

  /** A reveal as parsed. A payment whose proof is malformed makes the whole of it unreadable. */
  datatype Disclosure = Disclosure(image: string, payment: Option<Proof>)

  datatype Candidate = Candidate(hotkey: string, image: string, admitted: bool, rejection: Option<Rejection>)

  datatype Receipt = Receipt(hotkey: string, proof: Proof)

  /** Everything but the commitments. `reader` may not be configured. */
  datatype Terms = Terms(
    parse: string -> Option<Disclosure>, registered: set<string>, treasury: string, feeRao: int, reader: Option<Reader>)

  /** The candidates so far, and the payments of those that paid. */
  datatype Found = Found(candidates: seq<Candidate>, receipts: seq<Receipt>)

  function Spent(receipts: seq<Receipt>): set<string> {
    set r | r in receipts :: r.proof.Key()
  }

  function Turned(f: Found, hotkey: string, image: string, why: Rejection): Found {
    f.(candidates := f.candidates + [Candidate(hotkey, image, false, Some(why))])
  }

  function Visit(terms: Terms, f: Found, entry: (string, string)): Found {
    var hotkey := entry.0;
    if hotkey !in terms.registered then f else
    var disclosed := terms.parse(entry.1);
    if disclosed.None? then Turned(f, hotkey, "", UnreadableReveal) else
    var image := disclosed.value.image;
    var joined := f.candidates + [Candidate(hotkey, image, true, None)];
    if terms.feeRao <= 0 then f.(candidates := joined)
    else if disclosed.value.payment.None? then Turned(f, hotkey, image, NoPaymentProof)
    else if terms.reader.None? then Turned(f, hotkey, image, NoPaymentReader)
    else
      var proof := disclosed.value.payment.value;
      match VerifyPayment(terms.reader.value, proof, hotkey, terms.treasury, terms.feeRao, Spent(f.receipts))
      case Failure(why) => Turned(f, hotkey, image, why)
      case Success(_) => Found(joined, f.receipts + [Receipt(hotkey, proof)])
  }

  function Visited(terms: Terms, entries: seq<(string, string)>): Found {
    if entries == [] then Found([], [])
    else Visit(terms, Visited(terms, entries[..|entries| - 1]), entries[|entries| - 1])
  }

  /** By hotkey, as `sorted(raw)`; a dictionary has no two entries with one key. */
  predicate EntryLe(a: (string, string), b: (string, string)) {
    if a.0 == b.0 then LexLe(a.1, b.1) else LexLe(a.0, b.0)
  }

  lemma EntryOrder()
    ensures TotalOrder(EntryLe)
  {
    LexOrder();
  }

  /** The commitments in the order they are visited. */
  ghost function Ordered(raw: map<string, string>): seq<(string, string)> {
    SortBy(ItemsOf(raw), EntryLe)
  }

  method Discover(terms: Terms, raw: map<string, string>) returns (candidates: seq<Candidate>)
    ensures candidates == Visited(terms, Ordered(raw)).candidates
  {
    var items := Items(raw);
    EntryOrder();
    ListingsAgree(items, ItemsOf(raw), raw);
    SortByPermutation(items, ItemsOf(raw), EntryLe);
    candidates := VisitAll(terms, SortBy(items, EntryLe));
  }

  method VisitAll(terms: Terms, entries: seq<(string, string)>) returns (candidates: seq<Candidate>)
    ensures candidates == Visited(terms, entries).candidates
  {
    var spent: set<string> := {};
    candidates := [];
    for n := 0 to |entries|
      invariant candidates == Visited(terms, entries[..n]).candidates
      invariant spent == Spent(Visited(terms, entries[..n]).receipts)
    {
      ghost var f := Visited(terms, entries[..n]);
      VisitedOneMore(terms, entries, n);
      if entries[n].0 in terms.registered {
        var candidate, paid := Examine(terms, entries[n], spent, f);
        candidates := candidates + [candidate];
        if paid.Some? {
          SpentOneMore(f.receipts, Receipt(entries[n].0, paid.value));
          spent := spent + {paid.value.Key()};
        }
      }
    }
    assert entries[..|entries|] == entries;
  }

  lemma VisitedOneMore(terms: Terms, entries: seq<(string, string)>, n: nat)
    requires n < |entries|
    ensures Visited(terms, entries[..n + 1]) == Visit(terms, Visited(terms, entries[..n]), entries[n])
  {
    assert entries[..n + 1][..n] == entries[..n];
  }

  /** What becomes of one registered hotkey, and the payment it spends. */
  method Examine(terms: Terms, entry: (string, string), spent: set<string>, ghost f: Found)
      returns (candidate: Candidate, paid: Option<Proof>)
    requires entry.0 in terms.registered && spent == Spent(f.receipts)
    ensures Visit(terms, f, entry) ==
      Found(f.candidates + [candidate],
            if paid.Some? then f.receipts + [Receipt(entry.0, paid.value)] else f.receipts)
  {
    var hotkey := entry.0;
    var disclosed := terms.parse(entry.1);
    if disclosed.None? {
      return Candidate(hotkey, "", false, Some(UnreadableReveal)), None;
    }
    var image := disclosed.value.image;
    if terms.feeRao > 0 {
      if disclosed.value.payment.None? {
        return Candidate(hotkey, image, false, Some(NoPaymentProof)), None;
      }
      if terms.reader.None? {
        return Candidate(hotkey, image, false, Some(NoPaymentReader)), None;
      }
      var proof := disclosed.value.payment.value;
      var verified := VerifyPayment(terms.reader.value, proof, hotkey, terms.treasury, terms.feeRao, spent);
      if verified.Failure? {
        return Candidate(hotkey, image, false, Some(verified.error)), None;
      }
      return Candidate(hotkey, image, true, None), Some(proof);
    }
    return Candidate(hotkey, image, true, None), None;
  }

  lemma SpentOneMore(receipts: seq<Receipt>, r: Receipt)
    ensures Spent(receipts + [r]) == Spent(receipts) + {r.proof.Key()}
  {
  }

  // ----- Fee conservation -----

  function AdmittedCount(candidates: seq<Candidate>): nat {
    if candidates == [] then 0
    else AdmittedCount(candidates[..|candidates| - 1]) + if candidates[|candidates| - 1].admitted then 1 else 0
  }

  lemma AdmittedOneMore(candidates: seq<Candidate>, c: Candidate)
    ensures AdmittedCount(candidates + [c]) == AdmittedCount(candidates) + if c.admitted then 1 else 0
  {
    assert (candidates + [c])[..|candidates|] == candidates;
  }

  predicate SameTransfer(p: PaymentProof, q: PaymentProof) {
    p.blockHash == q.blockHash && p.extrinsicIndex == q.extrinsicIndex
  }

  /** One payment for each admitted candidate, all of different transfers. */
  ghost predicate PaidFor(terms: Terms, f: Found) {
    && terms.feeRao > 0
    && |f.receipts| == AdmittedCount(f.candidates)
    && (f.receipts != [] ==> terms.reader.Some?)
    && (forall r :: r in f.receipts ==>
          Paid(terms.reader.value, r.proof, r.hotkey, terms.treasury, terms.feeRao))
    && (forall i, j :: 0 <= i < j < |f.receipts| ==> !SameTransfer(f.receipts[i].proof, f.receipts[j].proof))
    && (forall c :: c in f.candidates && c.admitted ==> exists r :: r in f.receipts && r.hotkey == c.hotkey)
  }

  lemma NotSpentIsDifferent(receipts: seq<Receipt>, proof: Proof)
    requires proof.Key() !in Spent(receipts)
    ensures forall i :: 0 <= i < |receipts| ==> !SameTransfer(receipts[i].proof, proof)
  {
    forall i | 0 <= i < |receipts| ensures !SameTransfer(receipts[i].proof, proof) {
      assert receipts[i] in receipts;
      assert receipts[i].proof.Key() in Spent(receipts);
    }
  }

  lemma RejectedKeepsPaid(terms: Terms, f: Found, c: Candidate)
    requires PaidFor(terms, f) && !c.admitted
    ensures PaidFor(terms, f.(candidates := f.candidates + [c]))
  {
    AdmittedOneMore(f.candidates, c);
  }

  lemma PaidOneMore(terms: Terms, f: Found, c: Candidate, proof: Proof)
    requires PaidFor(terms, f) && c.admitted && terms.reader.Some?
    requires Paid(terms.reader.value, proof, c.hotkey, terms.treasury, terms.feeRao)
    requires proof.Key() !in Spent(f.receipts)
    ensures PaidFor(terms, Found(f.candidates + [c], f.receipts + [Receipt(c.hotkey, proof)]))
  {
    AdmittedOneMore(f.candidates, c);
    NotSpentIsDifferent(f.receipts, proof);
    var receipts := f.receipts + [Receipt(c.hotkey, proof)];
    assert receipts[|f.receipts|].hotkey == c.hotkey;
    forall d | d in f.candidates + [c] && d.admitted ensures exists r :: r in receipts && r.hotkey == d.hotkey {
      if d in f.candidates {
        var r :| r in f.receipts && r.hotkey == d.hotkey;
        assert r in receipts;
      } else {
        assert receipts[|f.receipts|] in receipts;
      }
    }
  }

  lemma VisitKeepsPaid(terms: Terms, f: Found, entry: (string, string))
    requires PaidFor(terms, f)
    ensures PaidFor(terms, Visit(terms, f, entry))
  {
    var hotkey, disclosed := entry.0, terms.parse(entry.1);
    if hotkey in terms.registered {
      var after := Visit(terms, f, entry);
      if |after.receipts| == |f.receipts| {
        RejectedKeepsPaid(terms, f, after.candidates[|f.candidates|]);
      } else {
        var proof := disclosed.value.payment.value;
        VerifiedExactly(terms.reader.value, proof, hotkey, terms.treasury, terms.feeRao, Spent(f.receipts));
        PaidOneMore(terms, f, Candidate(hotkey, disclosed.value.image, true, None), proof);
      }
    }
  }

  lemma {:induction false} VisitedPaid(terms: Terms, entries: seq<(string, string)>)
    requires terms.feeRao > 0
    ensures PaidFor(terms, Visited(terms, entries))
  {
    if entries != [] {
      VisitedPaid(terms, entries[..|entries| - 1]);
      VisitKeepsPaid(terms, Visited(terms, entries[..|entries| - 1]), entries[|entries| - 1]);
    }
  }

  /** What the transfers behind the receipts brought in. */
  function Received(reader: Reader, receipts: seq<Receipt>): int {
    if receipts == [] then 0 else
      var proof := receipts[|receipts| - 1].proof;
      var found := reader.transferAt(proof.blockHash, proof.extrinsicIndex);
      Received(reader, receipts[..|receipts| - 1]) + if found.Some? then found.value.amountRao else 0
  }

  lemma {:induction false} ReceivedIsFees(reader: Reader, receipts: seq<Receipt>, treasury: string, fee: int)
    requires forall r :: r in receipts ==> Paid(reader, r.proof, r.hotkey, treasury, fee)
    ensures Received(reader, receipts) == |receipts| * fee
  {
    if receipts != [] {
      var n := |receipts| - 1;
      assert receipts[n] in receipts;
      ReceivedIsFees(reader, receipts[..n], treasury, fee);
      assert (n + 1) * fee == n * fee + fee;
    }
  }

  /**
   * With a positive fee, the admitted candidates stand for as many different successful transfers to
   * the treasury, each of exactly the fee and made by the owner, and together for admitted times fee.
   */
  lemma FeesAreConserved(terms: Terms, raw: map<string, string>)
    requires terms.feeRao > 0
    ensures var f := Visited(terms, Ordered(raw));
      && PaidFor(terms, f)
      && (f.receipts != [] ==>
            Received(terms.reader.value, f.receipts) == AdmittedCount(f.candidates) * terms.feeRao)
  {
    VisitedPaid(terms, Ordered(raw));
    var f := Visited(terms, Ordered(raw));
    if f.receipts != [] {
      ReceivedIsFees(terms.reader.value, f.receipts, terms.treasury, terms.feeRao);
    }
  }

  // ----- Who is a candidate -----

  function Hotkeys(candidates: seq<Candidate>): seq<string> { Map(candidates, (c: Candidate) => c.hotkey) }

  lemma VisitAddsAtMostOne(terms: Terms, f: Found, entry: (string, string))
    ensures var g := Visit(terms, f, entry);
      Hotkeys(g.candidates) == Hotkeys(f.candidates) + if entry.0 in terms.registered then [entry.0] else []
  {
  }

  lemma {:induction false} VisitedHotkeys(terms: Terms, entries: seq<(string, string)>, hotkey: string)
    ensures hotkey in Hotkeys(Visited(terms, entries).candidates)
      <==> hotkey in terms.registered && exists e :: e in entries && e.0 == hotkey
  {
    if entries != [] {
      var n := |entries| - 1;
      VisitedHotkeys(terms, entries[..n], hotkey);
      VisitAddsAtMostOne(terms, Visited(terms, entries[..n]), entries[n]);
      assert entries == entries[..n] + [entries[n]];
      if hotkey == entries[n].0 {
        assert entries[n] in entries;
      }
    }
  }

  lemma {:induction false} VisitedAscend(terms: Terms, entries: seq<(string, string)>)
    requires forall i, j :: 0 <= i < j < |entries| ==> LexLe(entries[i].0, entries[j].0) && entries[i].0 != entries[j].0
    ensures var hotkeys := Hotkeys(Visited(terms, entries).candidates);
      forall i, j :: 0 <= i < j < |hotkeys| ==> LexLe(hotkeys[i], hotkeys[j]) && hotkeys[i] != hotkeys[j]
  {
    if entries != [] {
      var n := |entries| - 1;
      VisitedAscend(terms, entries[..n]);
      VisitAddsAtMostOne(terms, Visited(terms, entries[..n]), entries[n]);
      var before := Hotkeys(Visited(terms, entries[..n]).candidates);
      forall i | 0 <= i < |before| ensures LexLe(before[i], entries[n].0) && before[i] != entries[n].0 {
        VisitedHotkeys(terms, entries[..n], before[i]);
        var e :| e in entries[..n] && e.0 == before[i];
        var k :| 0 <= k < n && entries[..n][k] == e;
        assert entries[k] == e;
      }
    }
  }

  lemma OrderedEntries(raw: map<string, string>)
    ensures var entries := Ordered(raw);
      && (forall i, j :: 0 <= i < j < |entries| ==> LexLe(entries[i].0, entries[j].0) && entries[i].0 != entries[j].0)
      && (forall e :: e in entries <==> e.0 in raw && raw[e.0] == e.1)
  {
    var items, entries := ItemsOf(raw), Ordered(raw);
    EntryOrder();
    SortBySorted(items, EntryLe);
    forall e ensures e in entries <==> e.0 in raw && raw[e.0] == e.1 {
      assert e in entries <==> e in multiset(entries);
      assert e in items <==> e in multiset(items);
    }
    forall i, j | 0 <= i < j < |entries| ensures LexLe(entries[i].0, entries[j].0) && entries[i].0 != entries[j].0 {
      LexTotal(entries[i].0, entries[i].0);
      assert EntryLe(entries[i], entries[j]);
      if entries[i].0 == entries[j].0 {
        assert entries[i] in entries && entries[j] in entries;
        assert entries[i] == entries[j];
        RepeatCounts(entries, i, j);
        OccursOnce(items, raw, entries[i]);
      }
    }
  }

  /** Every registered hotkey with a commitment is a candidate, once, in ascending order; nobody else is. */
  lemma OneCandidateEach(terms: Terms, raw: map<string, string>)
    ensures var hotkeys := Hotkeys(Visited(terms, Ordered(raw)).candidates);
      && (forall h :: h in hotkeys <==> h in terms.registered && h in raw)
      && (forall i, j :: 0 <= i < j < |hotkeys| ==> LexLe(hotkeys[i], hotkeys[j]) && hotkeys[i] != hotkeys[j])
  {
    OrderedEntries(raw);
    VisitedAscend(terms, Ordered(raw));
    forall h ensures h in Hotkeys(Visited(terms, Ordered(raw)).candidates) <==> h in terms.registered && h in raw {
      VisitedHotkeys(terms, Ordered(raw), h);
      if h in raw {
        assert (h, raw[h]) in Ordered(raw);
      }
    }
  }
}
