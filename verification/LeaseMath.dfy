/** Conversions between a rate, a deposit and a number of leased seconds. */
module LeaseMath {
  import opened Prelude

  /** A rate is an amount per day. */
  const RATE_SEC_DENOM: nat := 86_400

  function DepositFromSecondsFloor(seconds: Uint64, rate: Uint128): Result<Uint128> {
    MultiplyRatio(rate, seconds, RATE_SEC_DENOM)
  }

  /** The product is taken in 128 bits here, so it can overflow where the floor variant does not. */
  function DepositFromSecondsCeil(seconds: Uint64, rate: Uint128): Result<Uint128> {
    if Times(seconds, rate) + RATE_SEC_DENOM < U128 then
      MultiplyRatio(1, Times(seconds, rate) + RATE_SEC_DENOM - 1, RATE_SEC_DENOM)
    else
      Err(Overflow)
  }

  /** `None` for a zero rate. The quotient is cut to 64 bits without a check. */
  function SecondsFromDeposit(deposit: Uint128, rate: Uint128): Result<Option<Uint64>> {
    if rate == 0 then
      Ok(None)
    else
      var seconds :- MultiplyRatio(deposit, RATE_SEC_DENOM, rate);
      Ok(Some(seconds % U64))
  }

  // ----- The same conversions as numbers

  /** Rent for `seconds`, rounded against the tenant. */
  function Rent(seconds: nat, rate: nat): nat {
    CeilDiv(Times(seconds, rate), RATE_SEC_DENOM)
  }

  /** Whole seconds that `deposit` pays for. */
  function LeaseSeconds(deposit: nat, rate: nat): nat
    requires rate > 0
  {
    FloorDiv(Times(deposit, RATE_SEC_DENOM), rate)
  }

  lemma CeilIsRent(seconds: Uint64, rate: Uint128)
    ensures DepositFromSecondsCeil(seconds, rate).Ok? <==> Times(seconds, rate) + RATE_SEC_DENOM < U128
    ensures DepositFromSecondsCeil(seconds, rate).Ok? ==>
              DepositFromSecondsCeil(seconds, rate).value == Rent(seconds, rate)
  {
  }

  /** The cut to 64 bits is harmless exactly when the lease fits. */
  lemma {:induction false} SecondsExact(d: Uint128, rate: Uint128)
    requires rate > 0
    ensures LeaseSeconds(d, rate) < U64 <==> SecondsFromDeposit(d, rate) == Ok(Some(LeaseSeconds(d, rate)))
  {
    var lease := LeaseSeconds(d, rate);
    assert lease < U64 ==> lease % U64 == lease;
    assert MultiplyRatio(d, RATE_SEC_DENOM, rate) == if lease < U128 then Ok(lease) else Err(Overflow);
  }

  /** A deposit covers the rent of `s` seconds exactly when it buys at least `s` seconds. */
  lemma {:induction false} RentGalois(s: nat, d: nat, rate: nat)
    requires rate > 0
    ensures Rent(s, rate) <= d <==> s <= LeaseSeconds(d, rate)
  {
    CeilGalois(s * rate, RATE_SEC_DENOM, d);
    FloorGalois(s, d * RATE_SEC_DENOM, rate);
  }

  /** The same connection on the code's own functions, before the cut to 64 bits. */
  lemma {:induction false} ConversionGalois(s: Uint64, d: Uint128, rate: Uint128)
    requires rate > 0
    requires DepositFromSecondsCeil(s, rate).Ok?
    ensures DepositFromSecondsCeil(s, rate).value <= d <==> s <= LeaseSeconds(d, rate)
    ensures SecondsFromDeposit(d, rate).Ok? <==> LeaseSeconds(d, rate) < U128
    ensures LeaseSeconds(d, rate) < U64 <==> SecondsFromDeposit(d, rate) == Ok(Some(LeaseSeconds(d, rate)))
  {
    CeilIsRent(s, rate);
    RentGalois(s, d, rate);
    SecondsExact(d, rate);
  }

  /** A deposit within the floor bound for `s` seconds buys at most `s` seconds. */
  lemma {:induction false} FloorBoundsLease(s: Uint64, d: nat, rate: Uint128)
    requires rate > 0
    requires DepositFromSecondsFloor(s, rate).Ok?
    requires d <= DepositFromSecondsFloor(s, rate).value
    ensures LeaseSeconds(d, rate) <= s
  {
    DivBounds(rate * s, RATE_SEC_DENOM);
    assert d * RATE_SEC_DENOM <= rate * s;
    DivBounds(d * RATE_SEC_DENOM, rate);
    assert (s + 1) * rate == rate * s + rate;
    if LeaseSeconds(d, rate) > s {
      MulLe(s + 1, LeaseSeconds(d, rate), rate);
    }
  }

  /** Round trip: the deposit asked for `s` seconds buys at least `s` seconds, and at a rate of a unit
      per second or more it buys exactly `s`. */
  lemma {:induction false} RentRoundTrip(s: nat, rate: nat)
    requires rate > 0
    ensures LeaseSeconds(Rent(s, rate), rate) >= s
    ensures rate >= RATE_SEC_DENOM ==> LeaseSeconds(Rent(s, rate), rate) == s
  {
    RentGalois(s, Rent(s, rate), rate);
    if rate >= RATE_SEC_DENOM {
      CeilBounds(s * rate, RATE_SEC_DENOM);
      FloorGalois(s + 1, Rent(s, rate) * RATE_SEC_DENOM, rate);
      assert (s + 1) * rate == s * rate + rate;
    }
  }

  /** A rate is the rent of one day. */
  lemma {:induction false} RateIsDaily(rate: nat)
    ensures Rent(86_400, rate) == rate
    ensures rate > 0 ==> LeaseSeconds(rate, rate) == 86_400
  {
    CeilGalois(86_400 * rate, 86_400, rate);
    if rate > 0 {
      CeilGalois(86_400 * rate, 86_400, rate - 1);
      FloorGalois(86_400, rate * 86_400, rate);
      FloorGalois(86_401, rate * 86_400, rate);
    }
  }

  lemma {:induction false} RentMonotone(s1: nat, s2: nat, rate: nat)
    requires s1 <= s2
    ensures Rent(s1, rate) <= Rent(s2, rate)
  {
    MulLe(s1, s2, rate);
    CeilBounds(s2 * rate, RATE_SEC_DENOM);
    CeilGalois(s1 * rate, RATE_SEC_DENOM, Rent(s2, rate));
  }

  lemma {:induction false} LeaseMonotone(d1: nat, d2: nat, rate: nat)
    requires rate > 0
    requires d1 <= d2
    ensures LeaseSeconds(d1, rate) <= LeaseSeconds(d2, rate)
  {
    DivBounds(d1 * RATE_SEC_DENOM, rate);
    FloorGalois(LeaseSeconds(d1, rate), d2 * RATE_SEC_DENOM, rate);
  }
}
