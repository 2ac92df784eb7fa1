/** src/enclave/ledger/store.py: what opening rounds and appending to them leaves to be read back. */
module LedgerRuns {
  import opened Json
  import opened LedgerLaws
  import opened Ledgers
  import opened Strings
  import opened Wrappers

  /** A round identifier that names a directory and stays inside the ledger's own. */
  predicate SafeName(id: string) {
    && id != ""
    && (forall i :: 0 <= i < |id| ==> id[i] != '/')
    && (forall i :: 0 < i < |id| ==> !(id[i - 1] == '.' && id[i] == '.'))
  }

  lemma {:induction false} SafeNameIs(id: string)
    ensures SafeRoundId(id) <==> SafeName(id)
  {
    if i :| 0 < i < |id| && id[i - 1] == '.' && id[i] == '.' {
      assert id[i - 1..i - 1 + 2] == "..";
      assert OccursAt(id, "..", i - 1);
    }
    if Contains(id, "..") {
      var i :| 0 <= i <= |id| - 2 && OccursAt(id, "..", i);
      assert id[i..i + 2][0] == '.' && id[i..i + 2][1] == '.';
      assert id[i + 1 - 1] == '.' && id[i + 1] == '.';
    }
  }

  // ----- One operation -----

  /** What a round's lines decode to. */
  function ChainIn(h: Hashing, s: Store, id: string): seq<ChainedRecord> {
    var chain := Decoded(h.codec, LinesIn(s, id));
    if chain.Success? then chain.value else []
  }

  /** Nothing changes in `t` but the lines of round `id`. */
  ghost predicate OnlyLinesOf(s: Store, t: Store, id: string) {
    t.headers == s.headers && forall other :: other != id ==> LinesIn(t, other) == LinesIn(s, other)
  }

  /** The link of a record behind `previous`: the hash of both, the record by its own digest. */
  function LinkAfter(h: Hashing, previous: string, r: Entry): string {
    h.hash(previous + "\0" + h.hash("enclave.instance.v1" + "\0" + h.render(EncodeEntry(h.codec, r))))
  }

  /**
   * An append to a verified round that is open adds exactly its record, readable back, behind the old
   * tip and as the new one; any other is refused and changes nothing.
   */
  lemma {:induction false} AppendAddsOne(h: Hashing, s: Store, id: string, r: Entry)
    requires Faithful(h.codec) && ValidEntry(r) && Checked(h, LinesIn(s, id)) == Success(true)
    ensures var (t, result) := Appended(h, s, id, r);
      && (result.Success? <==> SafeName(id) && id in s.headers)
      && (result == Failure(UnsafeRoundId) <==> !SafeName(id))
      && (result == Failure(NoHeader) <==> SafeName(id) && id !in s.headers)
      && (result.Failure? ==> t == s)
      && OnlyLinesOf(s, t, id)
      && (result.Success? ==>
            && ChainIn(h, t, id) == ChainIn(h, s, id) + [result.value]
            && result.value.record == r && result.value.previous == Tip(ChainIn(h, s, id))
            && result.value.link == LinkAfter(h, result.value.previous, r) == Tip(ChainIn(h, t, id))
            && Checked(h, LinesIn(t, id)) == Success(true))
  {
    SafeNameIs(id);
    CheckedDecodes(h, LinesIn(s, id));
    AppendKeepsVerified(h, LinesIn(s, id), r);
  }

  /** Opening stores a new header; a round keeps its first one, whatever else it is opened with. */
  lemma {:induction false} OpenKeepsFirst(digest: RoundHeader -> string, s: Store, header: RoundHeader)
    ensures var (t, result) := Opened(digest, s, header);
      var id := header.roundId;
      && (result == Failure(UnsafeRoundId) <==> !SafeName(id))
      && (result == Failure(HeaderDiffers) <==>
            SafeName(id) && id in s.headers && digest(s.headers[id]) != digest(header))
      && t.lines == s.lines
      && (if SafeName(id) && id !in s.headers then result == Success(()) && t.headers == s.headers[id := header]
          else t == s)
  {
    SafeNameIs(header.roundId);
  }

  // ----- Whole runs -----

  const EMPTY := Store(map[], map[])

  predicate OpensRound(op: Operation, id: string) { op.Open? && op.header.roundId == id }

  /** Some operation opens round `id`. */
  predicate OpenedIn(ops: seq<Operation>, id: string) {
    exists k :: 0 <= k < |ops| && OpensRound(ops[k], id)
  }

  /** The records appended to round `id` once it was opened, in order. */
  function Recorded(ops: seq<Operation>, id: string): seq<Entry> {
    if ops == [] then [] else
      var before, op := ops[..|ops| - 1], ops[|ops| - 1];
      Recorded(before, id)
        + if op.Append? && op.roundId == id && SafeName(id) && OpenedIn(before, id) then [op.record] else []
  }

  function RecordsOf(chain: seq<ChainedRecord>): seq<Entry> {
    seq(|chain|, i requires 0 <= i < |chain| => chain[i].record)
  }

  lemma {:induction false} OpenedOneMore(ops: seq<Operation>, id: string)
    requires ops != []
    ensures OpenedIn(ops, id) <==> OpenedIn(ops[..|ops| - 1], id) || OpensRound(ops[|ops| - 1], id)
  {
    var n := |ops| - 1;
    if k :| 0 <= k < n && OpensRound(ops[..n][k], id) {
      assert OpensRound(ops[k], id);
    }
    if k :| 0 <= k < |ops| && OpensRound(ops[k], id) {
      assert k < n ==> OpensRound(ops[..n][k], id);
    }
  }

  /** What a run leaves of round `id`. */
  ghost predicate Holds(h: Hashing, s: Store, ops: seq<Operation>, id: string) {
    && (id in s.headers <==> SafeName(id) && OpenedIn(ops, id))
    && Checked(h, LinesIn(s, id)) == Success(true)
    && RecordsOf(ChainIn(h, s, id)) == Recorded(ops, id)
  }

  lemma {:induction false} RecordedOneMore(ops: seq<Operation>, id: string)
    requires ops != []
    ensures var before, op := ops[..|ops| - 1], ops[|ops| - 1];
      Recorded(ops, id)
        == if op.Append? && op.roundId == id && SafeName(id) && OpenedIn(before, id)
           then Recorded(before, id) + [op.record] else Recorded(before, id)
  {
  }

  lemma {:induction false} RecordsMore(chain: seq<ChainedRecord>, c: ChainedRecord)
    ensures RecordsOf(chain + [c]) == RecordsOf(chain) + [c.record]
  {
  }

  lemma {:induction false} OpenHolds(
      h: Hashing, digest: RoundHeader -> string, s: Store, ops: seq<Operation>, header: RoundHeader, id: string)
    requires ops != [] && ops[|ops| - 1] == Open(header) && Holds(h, s, ops[..|ops| - 1], id)
    ensures Holds(h, Opened(digest, s, header).0, ops, id)
  {
    OpenedOneMore(ops, id);
    RecordedOneMore(ops, id);
    OpenKeepsFirst(digest, s, header);
  }

  lemma {:induction false} AppendHolds(h: Hashing, s: Store, ops: seq<Operation>, id: string, r: Entry)
    requires Faithful(h.codec) && ValidEntry(r)
    requires ops != [] && ops[|ops| - 1] == Append(id, r) && Holds(h, s, ops[..|ops| - 1], id)
    ensures Holds(h, Appended(h, s, id, r).0, ops, id)
  {
    OpenedOneMore(ops, id);
    RecordedOneMore(ops, id);
    AppendAddsOne(h, s, id, r);
    var result := Appended(h, s, id, r).1;
    if result.Success? {
      RecordsMore(ChainIn(h, s, id), result.value);
    }
  }

  lemma {:induction false} AppendHoldsElsewhere(
      h: Hashing, s: Store, ops: seq<Operation>, round: string, r: Entry, id: string)
    requires ops != [] && ops[|ops| - 1] == Append(round, r) && round != id && Holds(h, s, ops[..|ops| - 1], id)
    ensures Holds(h, Appended(h, s, round, r).0, ops, id)
  {
    OpenedOneMore(ops, id);
    RecordedOneMore(ops, id);
    AppendElsewhere(h, s, round, r, id);
  }

  lemma {:induction false} AppendElsewhere(h: Hashing, s: Store, round: string, r: Entry, id: string)
    requires round != id
    ensures var t := Appended(h, s, round, r).0; t.headers == s.headers && LinesIn(t, id) == LinesIn(s, id)
  {
  }

  /**
   * Over every run from an empty ledger: a round holds exactly the records appended since it was
   * opened, in order, and verifies; it is open exactly when its name is safe and something opened it.
   */
  lemma {:induction false} RunRecords(h: Hashing, digest: RoundHeader -> string, ops: seq<Operation>, id: string)
    requires Faithful(h.codec)
    requires forall op :: op in ops && op.Append? ==> ValidEntry(op.record)
    ensures Holds(h, AfterAll(h, digest, EMPTY, ops), ops, id)
  {
    if ops != [] {
      var before := ops[..|ops| - 1];
      RunRecords(h, digest, before, id);
      var s := AfterAll(h, digest, EMPTY, before);
      match ops[|ops| - 1]
      case Open(header) => OpenHolds(h, digest, s, ops, header, id);
      case Append(round, r) =>
        if round == id {
          AppendHolds(h, s, ops, id, r);
        } else {
          AppendHoldsElsewhere(h, s, ops, round, r, id);
        }
    }
  }

  /** The header of a round is the one it was first opened with. */
  lemma {:induction false} HeaderIsFirst(
      h: Hashing, digest: RoundHeader -> string, ops: seq<Operation>, id: string, k: nat)
    requires k < |ops| && SafeName(id) && OpensRound(ops[k], id)
    requires forall j :: 0 <= j < k ==> !OpensRound(ops[j], id)
    ensures var s := AfterAll(h, digest, EMPTY, ops); id in s.headers && s.headers[id] == ops[k].header
  {
    var n := |ops| - 1;
    var before := AfterAll(h, digest, EMPTY, ops[..n]);
    if k < n {
      HeaderIsFirst(h, digest, ops[..n], id, k);
    } else {
      NotYetOpen(h, digest, ops[..n], id);
    }
    if ops[n].Open? {
      OpenKeepsFirst(digest, before, ops[n].header);
    }
  }

  lemma {:induction false} NotYetOpen(h: Hashing, digest: RoundHeader -> string, ops: seq<Operation>, id: string)
    requires forall j :: 0 <= j < |ops| ==> !OpensRound(ops[j], id)
    ensures id !in AfterAll(h, digest, EMPTY, ops).headers
  {
    if ops != [] {
      var n := |ops| - 1;
      NotYetOpen(h, digest, ops[..n], id);
      assert !OpensRound(ops[n], id);
    }
  }
}
