/** src/enclave/ledger/store.py: rounds of records, each linked to the one before by a hash. */
module Ledgers {
  import opened Json
  import opened Records
  import opened Sorting
  import opened Strings
  import opened Wrappers

  datatype Call = Call(
    model: string, provider: string, quantization: string,
    inputTokens: int, outputTokens: int, inputPrice: Dec, outputPrice: Dec)

  /** An instance record with everything that is stored of it. */
  datatype Entry = Entry(
    instanceId: string, submissionId: string, roundSeed: string, environment: string,
    outcome: Outcome, spend: Dec, calls: seq<Call>, audited: bool, auditPassed: Option<bool>,
    referenceSolved: Option<bool>, referenceSpend: Option<Dec>,
    transcriptDigest: string, metadata: map<string, Json>)

  /** What the constructors of the record and of its calls enforce. */
  predicate ValidEntry(r: Entry) {
    && r.spend.digits >= 0
    && (r.audited <==> r.auditPassed.Some?)
    && forall i :: 0 <= i < |r.calls| ==> r.calls[i].inputTokens >= 0 && r.calls[i].outputTokens >= 0
  }

  datatype ChainedRecord = ChainedRecord(record: Entry, previous: string, link: string)

  datatype RoundHeader = RoundHeader(roundId: string, contents: Json)

  datatype LedgerError = UnsafeRoundId | HeaderDiffers | NoHeader | Malformed

  const GENESIS := "00000000000000000000000000000000" + "00000000000000000000000000000000"

  // ----- Records as JSON -----

  function OutcomeText(o: Outcome): string {
    match o
    case SOLVED => "solved"
    case UNSOLVED => "unsolved"
    case CAP_EXHAUSTED => "cap_exhausted"
    case TIMEOUT => "timeout"
    case CRASHED => "crashed"
    case PROTOCOL_VIOLATION => "protocol_violation"
    case GRADER_TAMPERED => "grader_tampered"
    case RELAY_UNAVAILABLE => "relay_unavailable"
    case PROVIDER_ERROR => "provider_error"
    case ENVIRONMENT_FAULT => "environment_fault"
    case EVIDENCE_UNREOPENABLE => "evidence_unreopenable"
  }

  function OutcomeOf(s: string): Option<Outcome> {
    if s == "solved" then Some(SOLVED)
    else if s == "unsolved" then Some(UNSOLVED)
    else if s == "cap_exhausted" then Some(CAP_EXHAUSTED)
    else if s == "timeout" then Some(TIMEOUT)
    else if s == "crashed" then Some(CRASHED)
    else if s == "protocol_violation" then Some(PROTOCOL_VIOLATION)
    else if s == "grader_tampered" then Some(GRADER_TAMPERED)
    else if s == "relay_unavailable" then Some(RELAY_UNAVAILABLE)
    else if s == "provider_error" then Some(PROVIDER_ERROR)
    else if s == "environment_fault" then Some(ENVIRONMENT_FAULT)
    else if s == "evidence_unreopenable" then Some(EVIDENCE_UNREOPENABLE)
    else None
  }

  function EncodeCall(c: Codec, call: Call): Json {
    JObject(map[
      MODEL := JText(call.model), PROVIDER := JText(call.provider),
      QUANTIZATION := JText(call.quantization),
      INPUT_TOKENS := JInt(call.inputTokens), OUTPUT_TOKENS := JInt(call.outputTokens),
      INPUT_PRICE_PER_MTOK := JText(c.show(call.inputPrice)),
      OUTPUT_PRICE_PER_MTOK := JText(c.show(call.outputPrice))])
  }

  function DecodeCall(c: Codec, o: Json): Option<Call> {
    var model, provider, quantization := Member(o, MODEL), Member(o, PROVIDER), Member(o, QUANTIZATION);
    var input, output := Member(o, INPUT_TOKENS), Member(o, OUTPUT_TOKENS);
    var inputPrice, outputPrice := Member(o, INPUT_PRICE_PER_MTOK), Member(o, OUTPUT_PRICE_PER_MTOK);
    if model.None? || provider.None? || quantization.None? || input.None? || output.None?
       || inputPrice.None? || outputPrice.None? then None
    else
      var i, n := c.whole(input.value), c.whole(output.value);
      var ip, op := AsDec(c, inputPrice.value), AsDec(c, outputPrice.value);
      if i.None? || n.None? || ip.None? || op.None? then None
      else Some(Call(c.text(model.value), c.text(provider.value), c.text(quantization.value),
                     i.value, n.value, ip.value, op.value))
  }

  function Encoder(c: Codec): Call -> Json { (call: Call) => EncodeCall(c, call) }

  function Decoder(c: Codec): Json -> Option<Call> { (o: Json) => DecodeCall(c, o) }

  function EncodeCalls(c: Codec, calls: seq<Call>): seq<Json> { Map(calls, Encoder(c)) }

  /** Every item decoded, or nothing. */
  function DecodeEach<T>(items: seq<Json>, decode: Json -> Option<T>): Option<seq<T>> {
    if items == [] then Some([]) else
      var before, last := DecodeEach(items[..|items| - 1], decode), decode(items[|items| - 1]);
      if before.None? || last.None? then None else Some(before.value + [last.value])
  }

  function DecodeCalls(c: Codec, items: seq<Json>): Option<seq<Call>> { DecodeEach(items, Decoder(c)) }

  function OptionalBool(b: Option<bool>): Json { if b.Some? then JBool(b.value) else JNull }

  function EncodeEntry(c: Codec, r: Entry): Json {
    JObject(map[
      INSTANCE_ID := JText(r.instanceId), SUBMISSION_ID := JText(r.submissionId),
      ROUND_SEED := JText(r.roundSeed), ENVIRONMENT := JText(r.environment),
      OUTCOME := JText(OutcomeText(r.outcome)), SPEND := JText(c.show(r.spend)),
      CALLS := JList(EncodeCalls(c, r.calls)),
      AUDITED := JBool(r.audited), AUDIT_PASSED := OptionalBool(r.auditPassed),
      REFERENCE_SOLVED := OptionalBool(r.referenceSolved),
      REFERENCE_SPEND := if r.referenceSpend.Some? then JText(c.show(r.referenceSpend.value)) else JNull,
      TRANSCRIPT_DIGEST := JText(r.transcriptDigest), METADATA := JObject(r.metadata)])
  }

  /** The parts of an entry that may be absent. */
  function CallsIn(o: Json): seq<Json> {
    var calls := MemberOrNull(o, CALLS);
    if calls.JList? then calls.items else []
  }

  function BoolIn(o: Json, name: string): Option<bool> {
    var v := MemberOrNull(o, name);
    if v.JBool? then Some(v.flag) else None
  }

  function MetadataIn(o: Json): map<string, Json> {
    var v := MemberOrNull(o, METADATA);
    if v.JObject? then v.members else map[]
  }

  function TextIn(c: Codec, o: Json, name: string): string {
    var v := Member(o, name);
    if v.Some? then c.text(v.value) else ""
  }

  predicate HasRequired(o: Json) {
    && o.JObject?
    && INSTANCE_ID in o.members && SUBMISSION_ID in o.members && ROUND_SEED in o.members
    && ENVIRONMENT in o.members && OUTCOME in o.members && SPEND in o.members
  }

  /** `_decode_record`: absent optional members take their defaults, and the constructor has its say. */
  function DecodeEntry(c: Codec, o: Json): Result<Entry, LedgerError> {
    if !HasRequired(o) then Failure(Malformed) else
    var outcome, spend := OutcomeOf(TextIn(c, o, OUTCOME)), AsDec(c, MemberOrNull(o, SPEND));
    var calls := DecodeCalls(c, CallsIn(o));
    var reference := MemberOrNull(o, REFERENCE_SPEND);
    var referenceSpend := if reference.JNull? then None else AsDec(c, reference);
    if outcome.None? || spend.None? || calls.None? || (!reference.JNull? && referenceSpend.None?) then
      Failure(Malformed)
    else
      var entry := Entry(
        TextIn(c, o, INSTANCE_ID), TextIn(c, o, SUBMISSION_ID), TextIn(c, o, ROUND_SEED),
        TextIn(c, o, ENVIRONMENT), outcome.value, spend.value, calls.value,
        AUDITED in o.members && c.truth(o.members[AUDITED]),
        BoolIn(o, AUDIT_PASSED), BoolIn(o, REFERENCE_SOLVED), referenceSpend,
        TextIn(c, o, TRANSCRIPT_DIGEST), MetadataIn(o));
      if ValidEntry(entry) then Success(entry) else Failure(Malformed)
  }

  function EncodeLine(c: Codec, chained: ChainedRecord): Json {
    JObject(map[PREVIOUS := JText(chained.previous), LINK := JText(chained.link),
                RECORD := EncodeEntry(c, chained.record)])
  }

  function DecodeLine(c: Codec, line: Json): Result<ChainedRecord, LedgerError> {
    var record, previous, link := Member(line, RECORD), Member(line, PREVIOUS), Member(line, LINK);
    if record.None? then Failure(Malformed) else
    match DecodeEntry(c, record.value)
    case Failure(e) => Failure(e)
    case Success(entry) =>
      if previous.None? || link.None? then Failure(Malformed)
      else Success(ChainedRecord(entry, c.text(previous.value), c.text(link.value)))
  }

  lemma OutcomeRoundTrip(o: Outcome)
    ensures OutcomeOf(OutcomeText(o)) == Some(o)
  {
  }

  lemma CallRoundTrip(c: Codec, call: Call)
    requires Faithful(c)
    ensures DecodeCall(c, EncodeCall(c, call)) == Some(call)
  {
    var o := EncodeCall(c, call);
    assert AsDec(c, o.members[INPUT_PRICE_PER_MTOK]) == Some(call.inputPrice);
    assert AsDec(c, o.members[OUTPUT_PRICE_PER_MTOK]) == Some(call.outputPrice);
  }

  lemma {:induction false} EachRoundTrip<T>(values: seq<T>, encode: T -> Json, decode: Json -> Option<T>)
    requires forall k :: 0 <= k < |values| ==> decode(encode(values[k])) == Some(values[k])
    ensures DecodeEach(Map(values, encode), decode) == Some(values)
  {
    if values != [] {
      var n := |values| - 1;
      EachRoundTrip(values[..n], encode, decode);
      assert Map(values, encode)[..n] == Map(values[..n], encode);
      assert values == values[..n] + [values[n]];
    }
  }

  lemma CallsRoundTrip(c: Codec, calls: seq<Call>)
    requires Faithful(c)
    ensures DecodeCalls(c, EncodeCalls(c, calls)) == Some(calls)
  {
    forall k | 0 <= k < |calls| ensures Decoder(c)(Encoder(c)(calls[k])) == Some(calls[k]) {
      CallRoundTrip(c, calls[k]);
    }
    EachRoundTrip(calls, Encoder(c), Decoder(c));
  }

  lemma TextsRead(c: Codec, r: Entry)
    requires Faithful(c)
    ensures var o := EncodeEntry(c, r);
      TextIn(c, o, INSTANCE_ID) == r.instanceId && TextIn(c, o, SUBMISSION_ID) == r.submissionId
  {
  }

  lemma RequiredWritten(c: Codec, r: Entry)
    ensures HasRequired(EncodeEntry(c, r))
  {
  }

  lemma SeedRead(c: Codec, r: Entry)
    requires Faithful(c)
    ensures var o := EncodeEntry(c, r);
      TextIn(c, o, ROUND_SEED) == r.roundSeed && TextIn(c, o, ENVIRONMENT) == r.environment
  {
  }

  lemma OtherTextsRead(c: Codec, r: Entry)
    requires Faithful(c)
    ensures var o := EncodeEntry(c, r);
      && TextIn(c, o, OUTCOME) == OutcomeText(r.outcome)
      && TextIn(c, o, TRANSCRIPT_DIGEST) == r.transcriptDigest
  {
  }

  lemma MembersRead(c: Codec, r: Entry)
    requires Faithful(c)
    ensures var o := EncodeEntry(c, r);
      && AsDec(c, MemberOrNull(o, SPEND)) == Some(r.spend)
      && CallsIn(o) == EncodeCalls(c, r.calls)
      && c.truth(o.members[AUDITED]) == r.audited
      && MetadataIn(o) == r.metadata
  {
  }

  lemma OptionalsRead(c: Codec, r: Entry)
    requires Faithful(c)
    ensures var o := EncodeEntry(c, r);
      && BoolIn(o, AUDIT_PASSED) == r.auditPassed && BoolIn(o, REFERENCE_SOLVED) == r.referenceSolved
      && (MemberOrNull(o, REFERENCE_SPEND).JNull? <==> r.referenceSpend.None?)
      && (r.referenceSpend.Some? ==> AsDec(c, MemberOrNull(o, REFERENCE_SPEND)) == r.referenceSpend)
  {
  }

  /** Reading back what was written gives the same record, so it has the same digest. */
  lemma EntryRoundTrip(c: Codec, r: Entry)
    requires Faithful(c) && ValidEntry(r)
    ensures DecodeEntry(c, EncodeEntry(c, r)) == Success(r)
  {
    RequiredWritten(c, r);
    TextsRead(c, r);
    SeedRead(c, r);
    OtherTextsRead(c, r);
    MembersRead(c, r);
    OptionalsRead(c, r);
    OutcomeRoundTrip(r.outcome);
    CallsRoundTrip(c, r.calls);
    DecodesTo(c, EncodeEntry(c, r), r);
  }

  /** Decoding is determined by what is read of each member. */
  lemma DecodesTo(c: Codec, o: Json, r: Entry)
    requires HasRequired(o) && ValidEntry(r) && AUDITED in o.members
    requires OutcomeOf(TextIn(c, o, OUTCOME)) == Some(r.outcome)
    requires AsDec(c, MemberOrNull(o, SPEND)) == Some(r.spend)
    requires DecodeCalls(c, CallsIn(o)) == Some(r.calls)
    requires TextIn(c, o, INSTANCE_ID) == r.instanceId && TextIn(c, o, SUBMISSION_ID) == r.submissionId
    requires TextIn(c, o, ROUND_SEED) == r.roundSeed && TextIn(c, o, ENVIRONMENT) == r.environment
    requires TextIn(c, o, TRANSCRIPT_DIGEST) == r.transcriptDigest && MetadataIn(o) == r.metadata
    requires c.truth(o.members[AUDITED]) == r.audited
    requires BoolIn(o, AUDIT_PASSED) == r.auditPassed && BoolIn(o, REFERENCE_SOLVED) == r.referenceSolved
    requires MemberOrNull(o, REFERENCE_SPEND).JNull? <==> r.referenceSpend.None?
    requires r.referenceSpend.Some? ==> AsDec(c, MemberOrNull(o, REFERENCE_SPEND)) == r.referenceSpend
    ensures DecodeEntry(c, o) == Success(r)
  {
  }

  lemma LineRoundTrip(c: Codec, chained: ChainedRecord)
    requires Faithful(c) && ValidEntry(chained.record)
    ensures DecodeLine(c, EncodeLine(c, chained)) == Success(chained)
  {
    EntryRoundTrip(c, chained.record);
    LineMembers(c, chained);
    LineDecodes(c, EncodeLine(c, chained), EncodeEntry(c, chained.record), chained);
  }

  lemma LineMembers(c: Codec, chained: ChainedRecord)
    ensures var line := EncodeLine(c, chained);
      && Member(line, RECORD) == Some(EncodeEntry(c, chained.record))
      && Member(line, PREVIOUS) == Some(JText(chained.previous))
      && Member(line, LINK) == Some(JText(chained.link))
  {
  }

  lemma LineDecodes(c: Codec, line: Json, entry: Json, chained: ChainedRecord)
    requires DecodeEntry(c, entry) == Success(chained.record)
    requires Member(line, RECORD) == Some(entry)
    requires Member(line, PREVIOUS) == Some(JText(chained.previous))
    requires c.text(JText(chained.previous)) == chained.previous
    requires Member(line, LINK) == Some(JText(chained.link)) && c.text(JText(chained.link)) == chained.link
    ensures DecodeLine(c, line) == Success(chained)
  {
  }

  // ----- Links -----

  /** The hash, and the text a tree is hashed as. */
  datatype Hashing = Hashing(hash: string -> string, render: Json -> string, codec: Codec)

  const INSTANCE_DOMAIN := "enclave.instance.v1"

  /** Digests are 64 characters, and the JSON conversions are faithful. */
  ghost predicate Usual(h: Hashing) {
    Faithful(h.codec) && forall x :: |h.hash(x)| == 64
  }

  function DigestInput(h: Hashing, r: Entry): string {
    INSTANCE_DOMAIN + "\0" + h.render(EncodeEntry(h.codec, r))
  }

  function Digest(h: Hashing, r: Entry): string { h.hash(DigestInput(h, r)) }

  function LinkInput(h: Hashing, previous: string, r: Entry): string { previous + "\0" + Digest(h, r) }

  function ComputeLink(h: Hashing, previous: string, r: Entry): string { h.hash(LinkInput(h, previous, r)) }

  predicate LinkHolds(h: Hashing, c: ChainedRecord) { c.link == ComputeLink(h, c.previous, c.record) }

  function Tip(chain: seq<ChainedRecord>): string {
    if chain == [] then GENESIS else chain[|chain| - 1].link
  }

  /** Every record names its predecessor's link and carries the link it should. */
  predicate Intact(h: Hashing, chain: seq<ChainedRecord>) {
    forall i :: 0 <= i < |chain| ==> chain[i].previous == Tip(chain[..i]) && LinkHolds(h, chain[i])
  }

  function Decoded(c: Codec, lines: seq<Json>): Result<seq<ChainedRecord>, LedgerError> {
    if lines == [] then Success([]) else
    match Decoded(c, lines[..|lines| - 1])
    case Failure(e) => Failure(e)
    case Success(before) =>
      match DecodeLine(c, lines[|lines| - 1])
      case Failure(e) => Failure(e)
      case Success(last) => Success(before + [last])
  }

  /** The verdict after reading `lines`: false from the first broken link on, whatever follows. */
  function Checked(h: Hashing, lines: seq<Json>): Result<bool, LedgerError> {
    if lines == [] then Success(true) else
    match Checked(h, lines[..|lines| - 1])
    case Failure(e) => Failure(e)
    case Success(false) => Success(false)
    case Success(true) =>
      match DecodeLine(h.codec, lines[|lines| - 1])
      case Failure(e) => Failure(e)
      case Success(last) => Success(last.previous == TipOf(h, lines[..|lines| - 1]) && LinkHolds(h, last))
  }

  function TipOf(h: Hashing, lines: seq<Json>): string {
    var chain := Decoded(h.codec, lines);
    if chain.Success? then Tip(chain.value) else GENESIS
  }

  predicate SafeRoundId(id: string) { id != "" && '/' !in id && !Contains(id, "..") }

  /** The files: a header and the stored lines for each round. */
  datatype Store = Store(headers: map<string, RoundHeader>, lines: map<string, seq<Json>>)

  function LinesIn(s: Store, id: string): seq<Json> { if id in s.lines then s.lines[id] else [] }

  function Opened(headerDigest: RoundHeader -> string, s: Store, header: RoundHeader):
    (Store, Result<(), LedgerError>)
  {
    if !SafeRoundId(header.roundId) then (s, Failure(UnsafeRoundId))
    else if header.roundId in s.headers then
      var same := headerDigest(s.headers[header.roundId]) == headerDigest(header);
      (s, if same then Success(()) else Failure(HeaderDiffers))
    else (s.(headers := s.headers[header.roundId := header]), Success(()))
  }

  function Appended(h: Hashing, s: Store, id: string, r: Entry): (Store, Result<ChainedRecord, LedgerError>) {
    if !SafeRoundId(id) then (s, Failure(UnsafeRoundId))
    else if id !in s.headers then (s, Failure(NoHeader))
    else match Decoded(h.codec, LinesIn(s, id))
      case Failure(e) => (s, Failure(e))
      case Success(chain) =>
        var chained := ChainedRecord(r, Tip(chain), ComputeLink(h, Tip(chain), r));
        (s.(lines := s.lines[id := LinesIn(s, id) + [EncodeLine(h.codec, chained)]]), Success(chained))
  }

  class Ledger {
    const hashing: Hashing
    const headerDigest: RoundHeader -> string
    var headers: map<string, RoundHeader>
    var lines: map<string, seq<Json>>

    constructor (hashing: Hashing, headerDigest: RoundHeader -> string)
      ensures this.hashing == hashing && this.headerDigest == headerDigest
      ensures View() == Store(map[], map[])
    {
      this.hashing, this.headerDigest := hashing, headerDigest;
      headers, lines := map[], map[];
    }

    ghost function View(): Store
      reads this
    {
      Store(headers, lines)
    }

    method OpenRound(header: RoundHeader) returns (r: Result<(), LedgerError>)
      modifies this
      ensures (View(), r) == Opened(headerDigest, old(View()), header)
    {
      if !SafeRoundId(header.roundId) {
        return Failure(UnsafeRoundId);
      }
      if header.roundId in headers {
        if headerDigest(headers[header.roundId]) != headerDigest(header) {
          return Failure(HeaderDiffers);
        }
        return Success(());
      }
      headers := headers[header.roundId := header];
      return Success(());
    }

    method ReadTip(id: string) returns (r: Result<string, LedgerError>)
      ensures !SafeRoundId(id) ==> r == Failure(UnsafeRoundId)
      ensures SafeRoundId(id) ==>
        match Decoded(hashing.codec, LinesIn(View(), id))
        case Failure(e) => r == Failure(e)
        case Success(chain) => r == Success(Tip(chain))
    {
      if !SafeRoundId(id) {
        return Failure(UnsafeRoundId);
      }
      var stored := if id in lines then lines[id] else [];
      var previous := GENESIS;
      ghost var chain: seq<ChainedRecord> := [];
      for i := 0 to |stored|
        invariant Decoded(hashing.codec, stored[..i]) == Success(chain) && previous == Tip(chain)
      {
        var chained := DecodeLine(hashing.codec, stored[i]);
        assert stored[..i + 1][..i] == stored[..i];
        if chained.Failure? {
          DecodingStops(hashing.codec, stored, i + 1);
          return Failure(chained.error);
        }
        previous, chain := chained.value.link, chain + [chained.value];
      }
      assert stored[..|stored|] == stored;
      return Success(previous);
    }

    method Append(id: string, record: Entry) returns (r: Result<ChainedRecord, LedgerError>)
      modifies this
      ensures (View(), r) == Appended(hashing, old(View()), id, record)
    {
      if !SafeRoundId(id) {
        return Failure(UnsafeRoundId);
      }
      if id !in headers {
        return Failure(NoHeader);
      }
      var previous := ReadTip(id);
      if previous.Failure? {
        return Failure(previous.error);
      }
      var link := ComputeLink(hashing, previous.value, record);
      var chained := ChainedRecord(record, previous.value, link);
      var stored := if id in lines then lines[id] else [];
      lines := lines[id := stored + [EncodeLine(hashing.codec, chained)]];
      return Success(chained);
    }

    method Verify(id: string) returns (r: Result<bool, LedgerError>)
      ensures !SafeRoundId(id) ==> r == Failure(UnsafeRoundId)
      ensures SafeRoundId(id) ==> r == Checked(hashing, LinesIn(View(), id))
    {
      if !SafeRoundId(id) {
        return Failure(UnsafeRoundId);
      }
      var stored := if id in lines then lines[id] else [];
      var previous := GENESIS;
      for i := 0 to |stored|
        invariant Checked(hashing, stored[..i]) == Success(true) && previous == TipOf(hashing, stored[..i])
      {
        var chained := DecodeLine(hashing.codec, stored[i]);
        assert stored[..i + 1][..i] == stored[..i];
        if chained.Failure? {
          CheckStops(hashing, stored, i + 1);
          return Failure(chained.error);
        }
        if chained.value.previous != previous || !LinkHolds(hashing, chained.value) {
          CheckStops(hashing, stored, i + 1);
          return Success(false);
        }
        CheckedDecodes(hashing, stored[..i]);
        previous := chained.value.link;
      }
      assert stored[..|stored|] == stored;
      return Success(true);
    }
  }

  lemma {:induction false} DecodingStops(c: Codec, lines: seq<Json>, n: nat)
    requires n <= |lines| && Decoded(c, lines[..n]).Failure?
    ensures Decoded(c, lines) == Decoded(c, lines[..n])
    decreases |lines|
  {
    if n == |lines| {
      assert lines[..n] == lines;
    } else {
      assert lines[..|lines| - 1][..n] == lines[..n];
      DecodingStops(c, lines[..|lines| - 1], n);
    }
  }

  lemma {:induction false} CheckStops(h: Hashing, lines: seq<Json>, n: nat)
    requires n <= |lines| && Checked(h, lines[..n]) != Success(true)
    ensures Checked(h, lines) == Checked(h, lines[..n])
    decreases |lines|
  {
    if n == |lines| {
      assert lines[..n] == lines;
    } else {
      assert lines[..|lines| - 1][..n] == lines[..n];
      CheckStops(h, lines[..|lines| - 1], n);
    }
  }

  lemma {:induction false} CheckedDecodes(h: Hashing, lines: seq<Json>)
    requires Checked(h, lines) == Success(true)
    ensures Decoded(h.codec, lines).Success?
  {
    if lines != [] {
      CheckedDecodes(h, lines[..|lines| - 1]);
    }
  }
}
