/** src/enclave/relay/meter.py: the running bill of one instance and the cap on it. */
module Metering {
  import opened Numbers
  import opened Pricing
  import opened Wrappers

  /** A billed call: the price entry it was billed under and the tokens billed. */
  datatype CallCost = CallCost(price: ModelPrice, inputTokens: nat, outputTokens: nat)

  function CostOf(c: CallCost): int { Price(c.price, c.inputTokens, c.outputTokens) }

  function ExactOf(c: CallCost): real { ExactDollars(c.price, c.inputTokens, c.outputTokens) }

  datatype ChargeOutcome =
    | Charged(dollars: int, remaining: real)
    | SpendCapExceeded
    | MeterSealed
    | NegativeTokenCount

  datatype MeterState = MeterState(spendCap: real, spent: int, calls: seq<CallCost>, sealed: bool)
  {
    function Remaining(): real {
      if spendCap - Dollars(spent) >= 0.0 then spendCap - Dollars(spent) else 0.0
    }

    predicate AtCap() { Dollars(spent) >= spendCap }

    predicate CrossedRelay() {
      exists c :: c in calls && c.price.model != OBSERVATION_CHANNEL && c.outputTokens > 0
    }
  }

  function Sealed(m: MeterState): MeterState { m.(sealed := true) }

  /** One charge: nothing on a sealed meter, otherwise logged, added, and sealing at the cap. */
  function AfterCharge(m: MeterState, price: ModelPrice, inputTokens: int, outputTokens: int):
    (MeterState, ChargeOutcome)
  {
    if m.sealed then (m, MeterSealed)
    else if inputTokens < 0 || outputTokens < 0 then (m, NegativeTokenCount)
    else
      var dollars := Price(price, inputTokens, outputTokens);
      var spent := HalfEven((m.spent + dollars) as real);
      var billed := m.(spent := spent, calls := m.calls + [CallCost(price, inputTokens, outputTokens)]);
      if billed.AtCap() then (Sealed(billed), SpendCapExceeded)
      else (billed, Charged(dollars, billed.Remaining()))
  }

  /** `reported or 0`. */
  function OrZero(reported: Option<int>): int {
    if reported.Some? then reported.value else 0
  }

  function MaxInt(a: int, b: int): int { if a >= b then a else b }

  class Meter {
    const snapshot: PriceSnapshot
    const spendCap: real
    var calls: seq<CallCost>
    var spent: int
    var isSealed: bool

    constructor (snapshot: PriceSnapshot, spendCap: real)
      requires spendCap > 0.0
      ensures this.snapshot == snapshot
      ensures View() == MeterState(spendCap, 0, [], false)
    {
      this.snapshot, this.spendCap := snapshot, spendCap;
      calls, spent, isSealed := [], 0, false;
    }

    ghost function View(): MeterState
      reads this
    {
      MeterState(spendCap, spent, calls, isSealed)
    }

    method Seal()
      modifies this
      ensures View() == Sealed(old(View()))
    {
      isSealed := true;
    }

    method Remaining() returns (r: real)
      ensures r == View().Remaining()
    {
      var left := spendCap - Dollars(spent);
      r := if left >= 0.0 then left else 0.0;
    }

    method Affordable(model: string, inputTokens: int, projectedOutput: int)
        returns (r: Result<bool, PricingError>)
      ensures r == Affords(snapshot, View(), model, inputTokens, projectedOutput)
    {
      var entry := Lookup(snapshot, model);
      if entry.Failure? {
        return Failure(entry.error);
      }
      var quote := PriceTokens(entry.value, inputTokens, projectedOutput);
      if quote.Failure? {
        return Failure(quote.error);
      }
      var remaining := Remaining();
      return Success(Dollars(quote.value) <= remaining);
    }

    method Charge(price: ModelPrice, inputTokens: int, outputTokens: int) returns (r: ChargeOutcome)
      modifies this
      ensures (View(), r) == AfterCharge(old(View()), price, inputTokens, outputTokens)
    {
      if isSealed {
        return MeterSealed;
      }
      if inputTokens < 0 || outputTokens < 0 {
        return NegativeTokenCount;
      }
      var dollars := Price(price, inputTokens, outputTokens);
      calls := calls + [CallCost(price, inputTokens, outputTokens)];
      spent := HalfEven((spent + dollars) as real);
      if Dollars(spent) >= spendCap {
        isSealed := true;
        return SpendCapExceeded;
      }
      var remaining := Remaining();
      return Charged(dollars, remaining);
    }
  }

  function Affords(snapshot: PriceSnapshot, m: MeterState, model: string, inputTokens: int, outputTokens: int):
    Result<bool, PricingError>
  {
    match Lookup(snapshot, model)
    case Failure(e) => Failure(e)
    case Success(entry) =>
      match PriceTokens(entry, inputTokens, outputTokens)
      case Failure(e) => Failure(e)
      case Success(quote) => Success(Dollars(quote) <= m.Remaining())
  }

  // ----- What every charge keeps -----

  function TotalCost(calls: seq<CallCost>): int {
    if calls == [] then 0 else TotalCost(calls[..|calls| - 1]) + CostOf(calls[|calls| - 1])
  }

  function TotalExact(calls: seq<CallCost>): real {
    if calls == [] then 0.0 else TotalExact(calls[..|calls| - 1]) + ExactOf(calls[|calls| - 1])
  }

  /**
   * The bill is exact: spent is the sum of the logged prices; an unsealed meter is under its cap;
   * and before its last call the meter was always under its cap, so only the last can reach it.
   */
  ghost predicate Exact(snapshot: PriceSnapshot, m: MeterState) {
    && m.spent == TotalCost(m.calls)
    && (!m.sealed ==> !m.AtCap())
    && (forall k :: 0 <= k < |m.calls| ==> Dollars(TotalCost(m.calls[..k])) < m.spendCap)
    && (forall c :: c in m.calls ==> c.price in snapshot)
  }

  lemma ChargeKeepsExact(
      snapshot: PriceSnapshot, m: MeterState, price: ModelPrice, inputTokens: int, outputTokens: int)
    requires Exact(snapshot, m) && price in snapshot
    ensures Exact(snapshot, AfterCharge(m, price, inputTokens, outputTokens).0)
  {
    if !m.sealed && inputTokens >= 0 && outputTokens >= 0 {
      var call := CallCost(price, inputTokens, outputTokens);
      HalfEvenWhole(m.spent + CostOf(call));
      var calls := m.calls + [call];
      assert calls[..|m.calls|] == m.calls;
      forall k | 0 <= k < |calls| ensures Dollars(TotalCost(calls[..k])) < m.spendCap {
        if k < |m.calls| {
          assert calls[..k] == m.calls[..k];
        }
      }
    }
  }

  /** Rounding costs at most half a quantum a call. */
  lemma {:induction false} TotalNear(calls: seq<CallCost>)
    ensures Abs(Dollars(TotalCost(calls)) - TotalExact(calls)) <= |calls| as real * 0.5 / QUANTA_PER_DOLLAR
  {
    if calls != [] {
      var c := calls[|calls| - 1];
      TotalNear(calls[..|calls| - 1]);
      PriceNear(c.price, c.inputTokens, c.outputTokens);
    }
  }

  /** A charge of no more than an affordable quote cannot push the bill past the cap. */
  lemma AffordableStaysWithin(
      snapshot: PriceSnapshot, m: MeterState, model: string, i: nat, o: nat, i': nat, o': nat)
    requires ValidSnapshot(snapshot) && !m.AtCap()
    requires Affords(snapshot, m, model, i, o) == Success(true)
    requires i' <= i && o' <= o
    ensures Dollars(AfterCharge(m, Lookup(snapshot, model).value, i', o').0.spent) <= m.spendCap
  {
    var price := Lookup(snapshot, model).value;
    PriceMonotone(price, i', o', i, o);
    HalfEvenWhole(m.spent + Price(price, i', o'));
  }

  // ----- Bills falling due one after another -----

  /** The meter after `bills` have been charged in turn. */
  function AfterBills(m: MeterState, bills: seq<CallCost>): MeterState {
    if bills == [] then m else
      var last := bills[|bills| - 1];
      AfterCharge(AfterBills(m, bills[..|bills| - 1]), last.price, last.inputTokens, last.outputTokens).0
  }

  /** Spend and the first `k` of the bills together. */
  function Due(m: MeterState, bills: seq<CallCost>, k: nat): real
    requires k <= |bills|
  {
    Dollars(m.spent + TotalCost(bills[..k]))
  }

  /** The first `k` bills are charged: nothing before the last of them reached the cap. */
  ghost predicate ChargedUpTo(m: MeterState, bills: seq<CallCost>, k: nat) {
    && k <= |bills|
    && (forall j :: 0 <= j < k ==> Due(m, bills, j) < m.spendCap)
    && (k < |bills| ==> Due(m, bills, k) >= m.spendCap)
  }

  lemma DuePrefix(m: MeterState, bills: seq<CallCost>, n: nat, j: nat)
    requires j <= n <= |bills|
    ensures Due(m, bills[..n], j) == Due(m, bills, j)
  {
    assert bills[..n][..j] == bills[..j];
  }

  lemma ChargedPrefix(m: MeterState, bills: seq<CallCost>, n: nat, k: nat)
    requires n <= |bills| && ChargedUpTo(m, bills[..n], k)
    requires k == n < |bills| ==> Due(m, bills, n) >= m.spendCap
    ensures ChargedUpTo(m, bills, k)
  {
    forall j | 0 <= j <= n ensures Due(m, bills[..n], j) == Due(m, bills, j) {
      DuePrefix(m, bills, n, j);
    }
  }

  /** What `k` charged bills leave of a meter. */
  ghost predicate Charges(m: MeterState, bills: seq<CallCost>, k: nat, after: MeterState) {
    && k <= |bills|
    && after.spent == m.spent + TotalCost(bills[..k]) && after.calls == m.calls + bills[..k]
    && after.spendCap == m.spendCap && (after.sealed <==> after.AtCap())
  }

  /** One more charge on an open meter. */
  lemma OneMoreBill(m: MeterState, bills: seq<CallCost>, before: MeterState)
    requires bills != [] && Charges(m, bills[..|bills| - 1], |bills| - 1, before) && !before.sealed
    ensures var last := bills[|bills| - 1];
      Charges(m, bills, |bills|, AfterCharge(before, last.price, last.inputTokens, last.outputTokens).0)
  {
    var n := |bills| - 1;
    HalfEvenWhole(before.spent + CostOf(bills[n]));
    assert bills[..n][..n] == bills[..n] && bills[..n + 1] == bills;
    assert bills == bills[..n] + [bills[n]];
  }

  /** Bills are charged in turn up to the first that reaches the cap, and none after it. */
  lemma {:induction false} BillsStopAtCap(m: MeterState, bills: seq<CallCost>) returns (k: nat)
    requires !m.sealed && !m.AtCap()
    ensures ChargedUpTo(m, bills, k) && Charges(m, bills, k, AfterBills(m, bills))
  {
    if bills == [] {
      k := 0;
    } else {
      var n := |bills| - 1;
      var before := AfterBills(m, bills[..n]);
      k := BillsStopAtCap(m, bills[..n]);
      assert bills[..n][..k] == bills[..k];
      if before.sealed {
        DuePrefix(m, bills, n, k);
        ChargedPrefix(m, bills, n, k);
      } else {
        OpenUpTo(m, bills, k, before);
        OneMoreBill(m, bills, before);
        k := n + 1;
      }
    }
  }

  /** A meter still open has taken every bill. */
  lemma OpenUpTo(m: MeterState, bills: seq<CallCost>, k: nat, before: MeterState)
    requires bills != [] && !before.sealed
    requires ChargedUpTo(m, bills[..|bills| - 1], k) && Charges(m, bills[..|bills| - 1], k, before)
    ensures k == |bills| - 1 && ChargedUpTo(m, bills, |bills|)
  {
    var n := |bills| - 1;
    forall j | 0 <= j <= n ensures Due(m, bills[..n], j) == Due(m, bills, j) {
      DuePrefix(m, bills, n, j);
    }
    assert Due(m, bills[..n], k) < m.spendCap;
  }

  /** The `k`-th bill is the first to reach the cap, and passes it. */
  ghost predicate PassesAt(m: MeterState, bills: seq<CallCost>, k: nat) {
    && 0 < k <= |bills| && Due(m, bills, k) > m.spendCap
    && forall j :: 0 <= j < k ==> Due(m, bills, j) < m.spendCap
  }

  lemma OnlyThere(m: MeterState, bills: seq<CallCost>, n: nat, k: nat)
    requires ChargedUpTo(m, bills, n) && PassesAt(m, bills, k)
    ensures k == n
  {
  }

  /**
   * Whatever bills fall due in whatever order, the spend passes the cap exactly when the bill that
   * first reaches the cap passes it.
   */
  lemma WithinCapExactly(m: MeterState, bills: seq<CallCost>)
    requires !m.sealed && !m.AtCap()
    ensures Dollars(AfterBills(m, bills).spent) > m.spendCap <==> exists k: nat :: PassesAt(m, bills, k)
  {
    var n := BillsStopAtCap(m, bills);
    assert bills[..0] == [];
    if Due(m, bills, n) > m.spendCap {
      assert PassesAt(m, bills, n);
    }
    if k: nat :| PassesAt(m, bills, k) {
      OnlyThere(m, bills, n, k);
    }
  }
}
