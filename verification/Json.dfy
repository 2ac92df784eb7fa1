/** JSON values as trees, and the conversions the source applies when it reads them back. */
module Json {
  import opened Wrappers

  /** A decimal as it is written: digits and a power of ten. */
  datatype Dec = Dec(digits: int, exponent: int)

  // Member names of the ledger.
  const INSTANCE_ID := "instance_id"
  const SUBMISSION_ID := "submission_id"
  const ROUND_SEED := "round_seed"
  const ENVIRONMENT := "environment"
  const OUTCOME := "outcome"
  const SPEND := "spend"
  const CALLS := "calls"
  const AUDITED := "audited"
  const AUDIT_PASSED := "audit_passed"
  const REFERENCE_SOLVED := "reference_solved"
  const REFERENCE_SPEND := "reference_spend"
  const TRANSCRIPT_DIGEST := "transcript_digest"
  const METADATA := "metadata"
  const MODEL := "model"
  const PROVIDER := "provider"
  const QUANTIZATION := "quantization"
  const INPUT_TOKENS := "input_tokens"
  const OUTPUT_TOKENS := "output_tokens"
  const INPUT_PRICE_PER_MTOK := "input_price_per_mtok"
  const OUTPUT_PRICE_PER_MTOK := "output_price_per_mtok"
  const PREVIOUS := "previous"
  const LINK := "link"
  const RECORD := "record"

  datatype Json =
    | JNull
    | JBool(flag: bool)
    | JInt(number: int)
    | JText(text: string)
    | JList(items: seq<Json>)
    | JObject(members: map<string, Json>)

  /**
   * `str(Decimal)`, `Decimal(str)`, `str`, `int` and `bool`. Nothing is known of them but how they
   * treat what the ledger itself writes.
   */
  datatype Codec = Codec(
    show: Dec -> string, parse: string -> Option<Dec>,
    text: Json -> string, whole: Json -> Option<int>, truth: Json -> bool)

  ghost predicate Faithful(c: Codec) {
    && (forall d :: c.parse(c.show(d)) == Some(d))
    && (forall s :: c.text(JText(s)) == s)
    && (forall n :: c.whole(JInt(n)) == Some(n))
    && (forall b :: c.truth(JBool(b)) == b)
  }

  function Member(o: Json, name: string): Option<Json> {
    if o.JObject? && name in o.members then Some(o.members[name]) else None
  }

  /** `payload.get(name)`, with JSON null and absence alike. */
  function MemberOrNull(o: Json, name: string): Json {
    var m := Member(o, name);
    if m.Some? then m.value else JNull
  }

  /** `Decimal(str(value))`. */
  function AsDec(c: Codec, v: Json): Option<Dec> { c.parse(c.text(v)) }
}
