/** Chain tax on sent coins, and its deduction from a gross amount. */
module Terra {
  import opened Prelude

  /** The rate (18 decimals) and the cap that the treasury reports, fixed within one transaction. */
  datatype TaxPolicy = TaxPolicy(rate: Uint128, cap: Uint128)

  const LUNA: string := "uluna"

  function CalculateTax(t: TaxPolicy, amount: Uint128): Result<Uint128> {
    var scaledRate :- MultiplyRatio(FRACTION, t.rate, FRACTION);
    var denominator :- Add128(scaledRate, FRACTION);
    var kept :- MultiplyRatio(amount, FRACTION, denominator);
    var tax :- Sub128(amount, kept);
    Ok(Min(tax, t.cap))
  }

  /** The tax due on top of a sent amount, as a number. */
  function AddedTax(t: TaxPolicy, amount: nat): nat {
    Min(amount * t.rate / FRACTION, t.cap)
  }

  function CalculateAddedTax(t: TaxPolicy, amount: Uint128): Result<Uint128> {
    var tax :- MultiplyRatio(amount, t.rate, FRACTION);
    Ok(Min(tax, t.cap))
  }

  /** Abort and value of the added tax: only the uncapped product can overflow. */
  lemma AddedTaxDefined(t: TaxPolicy, amount: Uint128)
    ensures CalculateAddedTax(t, amount).Ok? <==> amount * t.rate / FRACTION < U128
    ensures CalculateAddedTax(t, amount).Ok? ==> CalculateAddedTax(t, amount).value == AddedTax(t, amount)
  {
  }

  function DeductTax(t: TaxPolicy, amount: Uint128): Result<Uint128> {
    var tax :- CalculateTax(t, amount);
    Sub128(amount, tax)
  }

  function DeductCoinTax(t: TaxPolicy, denom: string, amount: Uint128): Result<Uint128> {
    if denom == LUNA then Ok(amount) else DeductTax(t, amount)
  }

  /** The one abort of the deduction: a rate to which one cannot be added. */
  predicate TaxFits(t: TaxPolicy, denom: string) {
    denom == LUNA || t.rate + FRACTION < U128
  }

  /** What the chain takes when `amount` of `denom` is sent. */
  function ChainTax(t: TaxPolicy, denom: string, amount: nat): nat {
    if denom == LUNA then 0 else AddedTax(t, amount)
  }

  /** The share of `a` left once the rate is taken out. */
  function Kept(t: TaxPolicy, a: nat): nat {
    FloorDiv(a * FRACTION, t.rate + FRACTION)
  }

  lemma {:induction false} KeptAtMost(t: TaxPolicy, a: nat)
    ensures Kept(t, a) <= a
  {
    FloorGalois(a + 1, a * FRACTION, t.rate + FRACTION);
    assert (a + 1) * (t.rate + FRACTION) == a * t.rate + t.rate + a * FRACTION + FRACTION;
  }

  lemma {:induction false} KeptBounds(t: TaxPolicy, a: nat)
    ensures Kept(t, a) <= a
    ensures Times(Kept(t, a), t.rate + FRACTION) <= a * FRACTION < Times(Kept(t, a) + 1, t.rate + FRACTION)
  {
    KeptAtMost(t, a);
    FloorBounds(a * FRACTION, t.rate + FRACTION);
  }

  /** Aborts of the deduction, exactly: no amount overflows it, only a rate too large to add one to. */
  lemma {:induction false} DeductTaxDefined(t: TaxPolicy, a: Uint128)
    ensures DeductTax(t, a).Ok? <==> t.rate + FRACTION < U128
    ensures DeductTax(t, a).Ok? ==>
              DeductTax(t, a).value == if a - Kept(t, a) <= t.cap then Kept(t, a) else a - t.cap
  {
    assert FRACTION * t.rate / FRACTION == t.rate;
    assert MultiplyRatio(FRACTION, t.rate, FRACTION) == Ok(t.rate);
    KeptBounds(t, a);
    if t.rate + FRACTION < U128 {
      assert MultiplyRatio(a, FRACTION, t.rate + FRACTION) == Ok(Kept(t, a));
    }
  }

  /** How the chain's own tax on `x` splits: below the break-even point `x * (1 + rate)` stays within `a`,
      and from there on it passes `a` by less than one unit of the rounded tax. */
  lemma {:induction false} TaxAround(t: TaxPolicy, a: nat, x: nat)
    ensures x * (t.rate + FRACTION) <= a * FRACTION ==> x + x * t.rate / FRACTION <= a
    ensures x * (t.rate + FRACTION) > a * FRACTION ==> x + x * t.rate / FRACTION >= a
    ensures x * (t.rate + FRACTION) >= (a + 1) * FRACTION ==> x + x * t.rate / FRACTION > a
  {
    assert x * (t.rate + FRACTION) == x * t.rate + x * FRACTION;
  }

  /** When the rate decides, the sent amount and its tax leave over only what two roundings lose. */
  lemma {:induction false} KeptSlack(t: TaxPolicy, a: nat)
    ensures var kept := Kept(t, a);
            var tax := FloorDiv(kept * t.rate, FRACTION);
            kept + tax <= a <= kept + tax + CeilDiv(t.rate + FRACTION - 1, FRACTION)
  {
    KeptBounds(t, a);
    var d, kept := t.rate + FRACTION, Kept(t, a);
    // kept * rate == (a - kept) * F - lost with 0 <= lost < d
    var lost := a * FRACTION - kept * d;
    assert kept * d == kept * t.rate + kept * FRACTION;
    assert (kept + 1) * d == kept * d + d;
    CeilBounds(d - 1, FRACTION);
  }

  /** When the cap decides, they leave nothing over. */
  lemma {:induction false} CapSlack(t: TaxPolicy, a: nat, net: nat)
    requires net == a - t.cap && net > Kept(t, a)
    ensures net + AddedTax(t, net) == a
  {
    KeptBounds(t, a);
    MulLe(Kept(t, a) + 1, net, t.rate + FRACTION);
    TaxAround(t, a, net);
  }

  /** Deducting the tax inverts adding it, up to rounding, for every rate, cap and amount:
      net plus tax on net never passes the gross amount, and falls short by the rounding of one division. */
  lemma {:induction false} DeductTaxInvertsAddedTax(t: TaxPolicy, a: Uint128)
    requires DeductTax(t, a).Ok?
    ensures var net := DeductTax(t, a).value;
            net + AddedTax(t, net) <= a <= net + AddedTax(t, net) + CeilDiv(t.rate + FRACTION - 1, FRACTION)
    ensures t.rate <= FRACTION ==>
              (var net := DeductTax(t, a).value; a <= net + AddedTax(t, net) + 2)
    ensures var added := CalculateAddedTax(t, DeductTax(t, a).value);
            added.Ok? ==> DeductTax(t, a).value + added.value <= a
  {
    DeductTaxDefined(t, a);
    AddedTaxDefined(t, DeductTax(t, a).value);
    if a - Kept(t, a) <= t.cap {
      KeptSlack(t, a);
    } else {
      CapSlack(t, a, a - t.cap);
    }
  }

  lemma {:induction false} TwoMoreIsTooMuch(t: TaxPolicy, a: Uint128, x: nat)
    requires DeductTax(t, a).Ok?
    requires x >= DeductTax(t, a).value + 2
    ensures x + AddedTax(t, x) > a
  {
    DeductTaxDefined(t, a);
    KeptBounds(t, a);
    var d, kept := t.rate + FRACTION, Kept(t, a);
    assert x + t.cap > a;
    assert (kept + 2) * d >= (a + 1) * FRACTION by {
      assert (kept + 2) * d == (kept + 1) * d + d;
    }
    MulLe(kept + 2, x, d);
    TaxAround(t, a, x);
  }

  /** The deducted amount is the largest amount that can be sent out of `a`, or one below it. */
  lemma {:induction false} DeductTaxNearlyMaximal(t: TaxPolicy, a: Uint128, x: nat)
    requires DeductTax(t, a).Ok?
    requires Sendable(t, a, x)
    ensures x <= DeductTax(t, a).value + 1
  {
    if x >= DeductTax(t, a).value + 2 {
      TwoMoreIsTooMuch(t, a, x);
    }
  }

  /** One more unit is too much when the cap decides. */
  lemma {:induction false} CapIsMaximal(t: TaxPolicy, a: nat)
    requires a - Kept(t, a) > t.cap
    ensures var x := a - t.cap + 1; x + AddedTax(t, x) > a
  {
    var net := a - t.cap;
    CapSlack(t, a, net);
    MulLe(net, net + 1, t.rate);
    FloorMonotone(net * t.rate, (net + 1) * t.rate, FRACTION);
  }

  lemma {:induction false} FloorMonotone(x: nat, y: nat, d: nat)
    requires d > 0 && x <= y
    ensures x / d <= y / d
  {
    DivBounds(x, d);
    FloorGalois(x / d, y, d);
  }

  lemma WholeUnits(p: nat, x: nat, a: nat)
    ensures x + FloorDiv(p, FRACTION) > a <==> p + x * FRACTION >= (a + 1) * FRACTION
  {
  }

  lemma {:induction false} NextBreakEven(t: TaxPolicy, a: nat)
    ensures var x, d := Kept(t, a) + 1, t.rate + FRACTION;
            Times(x, t.rate) + x * FRACTION == a * FRACTION - Mod(a * FRACTION, d) + d
  {
    var kept, d := Kept(t, a), t.rate + FRACTION;
    DivMod(a * FRACTION, d);
    assert Times(kept, d) == kept * t.rate + kept * FRACTION;
    assert (kept + 1) * t.rate == kept * t.rate + t.rate;
  }

  /** When the rate decides, it depends on the remainder of the deduction's own division. */
  lemma {:induction false} KeptIsMaximalIff(t: TaxPolicy, a: nat)
    requires a - Kept(t, a) <= t.cap
    ensures var x := Kept(t, a) + 1;
            x + AddedTax(t, x) > a <==> Mod(a * FRACTION, t.rate + FRACTION) <= t.rate
  {
    var x := Kept(t, a) + 1;
    KeptAtMost(t, a);
    NextBreakEven(t, a);
    WholeUnits(Times(x, t.rate), x, a);
    assert AddedTax(t, x) == Min(FloorDiv(Times(x, t.rate), FRACTION), t.cap);
  }

  /** The amount can be sent, tax included, out of the gross amount. */
  predicate Sendable(t: TaxPolicy, a: nat, x: nat) {
    x + AddedTax(t, x) <= a
  }

  /** No larger amount can. */
  ghost predicate Maximal(t: TaxPolicy, a: nat, net: nat) {
    forall x: nat :: Sendable(t, a, x) ==> x <= net
  }

  lemma MaximalIsNextUnit(t: TaxPolicy, a: nat, net: nat)
    requires Maximal(t, a, net + 1)
    ensures Maximal(t, a, net) <==> !Sendable(t, a, net + 1)
  {
    if !Sendable(t, a, net + 1) {
      forall x: nat | Sendable(t, a, x)
        ensures x <= net
      {
        assert x <= net + 1;
      }
    }
  }

  lemma {:induction false} NextUnitTooMuchIff(t: TaxPolicy, a: Uint128)
    requires DeductTax(t, a).Ok?
    ensures Sendable(t, a, DeductTax(t, a).value + 1)
            <==> a - Kept(t, a) <= t.cap && Mod(a * FRACTION, t.rate + FRACTION) > t.rate
  {
    DeductTaxDefined(t, a);
    if a - Kept(t, a) > t.cap {
      CapIsMaximal(t, a);
    } else {
      KeptIsMaximalIff(t, a);
    }
  }

  lemma {:induction false} NextUnitIsMaximal(t: TaxPolicy, a: Uint128, net: nat)
    requires DeductTax(t, a) == Ok(net)
    ensures Maximal(t, a, net + 1)
  {
    forall x: nat | Sendable(t, a, x)
      ensures x <= net + 1
    {
      DeductTaxNearlyMaximal(t, a, x);
    }
  }

  /** Exactly when no larger amount could have been sent: when the cap decides, or the division that the deduction
      rounds leaves a remainder of at most the rate. Otherwise one more unit could have been sent. */
  lemma {:induction false} DeductTaxMaximalIff(t: TaxPolicy, a: Uint128)
    requires DeductTax(t, a).Ok?
    ensures Maximal(t, a, DeductTax(t, a).value)
            <==> a - Kept(t, a) > t.cap || Mod(a * FRACTION, t.rate + FRACTION) <= t.rate
  {
    var net := DeductTax(t, a).value;
    NextUnitIsMaximal(t, a, net);
    MaximalIsNextUnit(t, a, net);
    NextUnitTooMuchIff(t, a);
  }

  /** At rate one half the whole unit could be sent; the deduction keeps it back. */
  lemma {:induction false} DeductTaxNotMaximal(t: TaxPolicy)
    requires t == TaxPolicy(500_000_000_000_000_000, 1_000)
    ensures DeductTax(t, 1) == Ok(0) && Sendable(t, 1, 1)
    ensures !Maximal(t, 1, 0)
  {
    DeductTaxMaximalIff(t, 1);
  }

  /** The message builder's amount for any denomination: it can always be paid out of the gross amount. */
  lemma {:induction false} DeductCoinTaxPays(t: TaxPolicy, denom: string, a: Uint128)
    requires DeductCoinTax(t, denom, a).Ok?
    ensures var net := DeductCoinTax(t, denom, a).value;
            && net + ChainTax(t, denom, net) <= a
            && (t.rate <= FRACTION ==> a <= net + ChainTax(t, denom, net) + 2)
  {
    if denom != LUNA {
      DeductTaxInvertsAddedTax(t, a);
    }
  }

  /** The coin that goes out for a gross amount: all of it for Luna, otherwise what the rate leaves, or all but the
      cap where that is more. */
  function NetAmount(t: TaxPolicy, denom: string, a: nat): nat {
    if denom == LUNA then a
    else if a - Kept(t, a) <= t.cap then Kept(t, a)
    else a - t.cap
  }

  lemma {:induction false} DeductCoinTaxIs(t: TaxPolicy, denom: string, a: Uint128)
    ensures DeductCoinTax(t, denom, a).Ok? <==> TaxFits(t, denom)
    ensures DeductCoinTax(t, denom, a).Ok? ==> DeductCoinTax(t, denom, a).value == NetAmount(t, denom, a)
    ensures DeductCoinTax(t, denom, a).Err? ==> DeductCoinTax(t, denom, a).error == Overflow
  {
    if denom != LUNA {
      DeductTaxDefined(t, a);
      DeductTaxOverflows(t, a);
    }
  }

  lemma {:induction false} DeductTaxOverflows(t: TaxPolicy, a: Uint128)
    ensures DeductTax(t, a).Err? ==> DeductTax(t, a).error == Overflow
  {
  }
}
