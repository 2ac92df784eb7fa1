/** src/enclave/relay/pricing.py: what tokens cost. Money is counted in quanta of 1e-8 dollars. */
module Pricing {
  import opened Numbers
  import opened Sorting
  import opened Strings
  import opened Wrappers

  const OBSERVATION_CHANNEL := "environment.observation"
  const QUANTA_PER_DOLLAR: real := 100_000_000.0

  datatype ModelPrice = ModelPrice(model: string, inputPerMtok: real, outputPerMtok: real)

  datatype PricingError = NegativeTokens | NotPriced

  predicate ValidPrice(p: ModelPrice) {
    p.model != "" && p.inputPerMtok >= 0.0 && p.outputPerMtok >= 0.0
  }

  function Dollars(quanta: int): real { quanta as real / QUANTA_PER_DOLLAR }

  /** The unrounded price, in dollars. */
  function ExactDollars(p: ModelPrice, inputTokens: int, outputTokens: int): real {
    (inputTokens as real * p.inputPerMtok + outputTokens as real * p.outputPerMtok) / 1_000_000.0
  }

  /** The half-even rounded price of a call, in quanta. */
  function Price(p: ModelPrice, inputTokens: nat, outputTokens: nat): int {
    HalfEven(ExactDollars(p, inputTokens, outputTokens) * QUANTA_PER_DOLLAR)
  }

  function PriceTokens(p: ModelPrice, inputTokens: int, outputTokens: int): Result<int, PricingError> {
    if inputTokens < 0 || outputTokens < 0 then Failure(NegativeTokens)
    else Success(Price(p, inputTokens, outputTokens))
  }

  type PriceSnapshot = seq<ModelPrice>

  /** What the snapshot's constructor enforces. */
  ghost predicate ValidSnapshot(entries: PriceSnapshot) {
    && (forall e :: e in entries ==> ValidPrice(e))
    && (forall i, j :: 0 <= i < j < |entries| ==> entries[i].model != entries[j].model)
    && exists e :: e in entries && e.model == OBSERVATION_CHANNEL
  }

  function Lookup(entries: PriceSnapshot, model: string): (r: Result<ModelPrice, PricingError>)
    ensures r.Success? ==> r.value in entries && r.value.model == model
    ensures r.Failure? ==> r.error == NotPriced && forall e :: e in entries ==> e.model != model
  {
    if entries == [] then Failure(NotPriced)
    else if entries[0].model == model then Success(entries[0])
    else
      assert entries == [entries[0]] + entries[1..];
      Lookup(entries[1..], model)
  }

  predicate Selectable(entries: PriceSnapshot, model: string) {
    model != OBSERVATION_CHANNEL && Lookup(entries, model).Success?
  }

  function ModelOf(e: ModelPrice): string { e.model }

  /** `[m for m in models if m != OBSERVATION_CHANNEL]`. */
  function WithoutChannel(models: seq<string>): (r: seq<string>)
    ensures forall m :: m in r <==> m in models && m != OBSERVATION_CHANNEL
  {
    if models == [] then [] else
      var last := models[|models| - 1];
      assert models == models[..|models| - 1] + [last];
      WithoutChannel(models[..|models| - 1]) + if last != OBSERVATION_CHANNEL then [last] else []
  }

  /** What a session is told it may ask for: every priced model but the observation channel, sorted. */
  function Offered(entries: PriceSnapshot): seq<string> {
    WithoutChannel(SortBy(Map(entries, ModelOf), LexLe))
  }

  /** Offered is exactly what is accepted. */
  lemma OfferedIsSelectable(entries: PriceSnapshot, model: string)
    ensures model in Offered(entries) <==> Selectable(entries, model)
  {
    var models := Map(entries, ModelOf);
    assert model in SortBy(models, LexLe) <==> model in multiset(SortBy(models, LexLe));
    assert model in models <==> model in multiset(models);
    if i :| 0 <= i < |models| && models[i] == model {
      assert entries[i] in entries && entries[i].model == model;
    }
    var price := Lookup(entries, model);
    if price.Success? {
      var i :| 0 <= i < |entries| && entries[i] == price.value;
      assert models[i] == model;
    }
  }

  lemma TokensLe(a: nat, b: nat, rate: real)
    requires a <= b && rate >= 0.0
    ensures 0.0 <= a as real * rate <= b as real * rate
  {
    ProductNonneg(a as real, rate);
    ScaleLe(rate, a as real, b as real);
  }

  lemma ExactMonotone(p: ModelPrice, i: nat, o: nat, i': nat, o': nat)
    requires ValidPrice(p) && i <= i' && o <= o'
    ensures 0.0 <= ExactDollars(p, i, o) <= ExactDollars(p, i', o')
  {
    TokensLe(i, i', p.inputPerMtok);
    TokensLe(o, o', p.outputPerMtok);
  }

  /** The rounded price grows with either token count, and nothing is priced below zero. */
  lemma PriceMonotone(p: ModelPrice, i: nat, o: nat, i': nat, o': nat)
    requires ValidPrice(p) && i <= i' && o <= o'
    ensures 0 <= Price(p, i, o) <= Price(p, i', o')
  {
    ExactMonotone(p, i, o, i', o');
    RoundedMonotone(ExactDollars(p, i, o), ExactDollars(p, i', o'));
  }

  lemma RoundedMonotone(x: real, y: real)
    requires 0.0 <= x <= y
    ensures 0 <= HalfEven(x * QUANTA_PER_DOLLAR) <= HalfEven(y * QUANTA_PER_DOLLAR)
  {
    HalfEvenWhole(0);
    HalfEvenMonotone(0.0, x * QUANTA_PER_DOLLAR);
    HalfEvenMonotone(x * QUANTA_PER_DOLLAR, y * QUANTA_PER_DOLLAR);
  }

  /** Rounding moves a price by at most half a quantum. */
  lemma PriceNear(p: ModelPrice, i: nat, o: nat)
    ensures Abs(Dollars(Price(p, i, o)) - ExactDollars(p, i, o)) <= 0.5 / QUANTA_PER_DOLLAR
  {
  }

  lemma ExactAdds(p: ModelPrice, i: nat, o: nat, i': nat, o': nat)
    ensures ExactDollars(p, i + i', o + o') == ExactDollars(p, i, o) + ExactDollars(p, i', o')
  {
    Spread(p.inputPerMtok, i as real, i' as real);
    Spread(p.outputPerMtok, o as real, o' as real);
  }

  /** Splitting a call in two changes what it is billed by at most one quantum. */
  lemma SplitCall(p: ModelPrice, i: nat, o: nat, i': nat, o': nat)
    ensures -1 <= Price(p, i, o) + Price(p, i', o') - Price(p, i + i', o + o') <= 1
  {
    ExactAdds(p, i, o, i', o');
  }
}
