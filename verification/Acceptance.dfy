/** Exactly which calls the auction accepts, stated without rounding and with every overflow spelled out. */
module Acceptance {
  import opened Prelude
  import opened Terra
  import opened LeaseMath
  import opened NameStates
  import opened Auctions
  import AuctionInvariant

  /** The deposit pays for at least the shortest and at most the longest lease, in exact arithmetic. */
  predicate Affordable(config: Config, deposit: nat, rate: nat) {
    Times(config.minLease, rate) <= deposit * RATE_SEC_DENOM <= Times(config.maxLease, rate)
  }

  /** The bounds of the interval check stay within 128 bits. */
  predicate RateFits(config: Config, rate: nat) {
    && Times(config.minLease, rate) + RATE_SEC_DENOM < U128
    && FloorDiv(Times(config.maxLease, rate), RATE_SEC_DENOM) < U128
  }

  predicate RentFits(ns: NameState, now: nat) {
    ns.beginTime <= now && Times(now - ns.beginTime, ns.rate) + RATE_SEC_DENOM < U128
  }

  lemma {:induction false} FloorDepositIs(seconds: Uint64, rate: Uint128)
    ensures var most := FloorDiv(Times(seconds, rate), RATE_SEC_DENOM);
            DepositFromSecondsFloor(seconds, rate) == if most < U128 then Ok(most) else Err(Overflow)
  {
    assert Times(rate, seconds) == Times(seconds, rate);
  }

  /** The interval check rounds its two bounds in opposite directions, and so loses nothing. */
  lemma {:induction false} IntervalIsExact(config: Config, deposit: Uint128, rate: Uint128)
    ensures CheckInterval(config, deposit, rate)
            == if !RateFits(config, rate) then Err(Overflow)
               else if Affordable(config, deposit, rate) then Ok(())
               else Err(BidInvalidInterval)
  {
    CeilIsRent(config.minLease, rate);
    CeilGalois(Times(config.minLease, rate), RATE_SEC_DENOM, deposit);
    FloorDepositIs(config.maxLease, rate);
    FloorGalois(deposit, Times(config.maxLease, rate), RATE_SEC_DENOM);
  }

  lemma {:induction false} MessageDefined(config: Config, env: Env, to: Address, amount: Uint128)
    ensures RefundMessage(config, env, to, amount).Ok? <==> TaxFits(env.tax, config.stableDenom)
    ensures CollectorMessage(config, env, amount).Ok? <==> TaxFits(env.tax, config.stableDenom)
  {
    DeductTaxDefined(env.tax, amount);
  }

  /** A bid on a name that is free: accepted exactly when the deposit is affordable and can be passed on. */
  lemma {:induction false} BidOnFreeNameAcceptedIff(config: Config, entry: Option<NameState>, env: Env, rate: Uint128)
    requires entry.Some? ==> Stored(config, entry.value, env.now) && RunOut(entry.value, env.now)
    ensures AfterBid(config, entry, env, rate).Ok? <==>
            && RateFits(config, rate)
            && Affordable(config, env.funds, rate)
            && (env.funds == 0 || TaxFits(env.tax, config.stableDenom))
  {
    IntervalIsExact(config, env.funds, rate);
    MessageDefined(config, env, env.sender, env.funds);
    if entry.Some? {
      StoredStatus(config, entry.value, env.now);
    }
  }

  /** What the check at instantiation is for: it admits exactly the configurations under which some bid at a
      positive rate is ever accepted on a fresh name. */
  lemma {:induction false} ConfigUsableIff(config: Config)
    ensures Instantiate(config).Ok?
            <==> exists env: Env, rate: Uint128 :: rate > 0 && AfterBid(config, None, env, rate).Ok?
  {
    if config.minLease <= config.maxLease {
      var env := Env(0, "", config.minLease, TaxPolicy(0, 0));
      FreeBidAtUnitRate(config, env);
      assert AfterBid(config, None, env, RATE_SEC_DENOM).Ok?;
    }
    forall env: Env, rate: Uint128 | rate > 0 && AfterBid(config, None, env, rate).Ok?
      ensures config.minLease <= config.maxLease
    {
      AuctionInvariant.IntervalLease(config, env.funds, rate);
    }
  }

  lemma {:induction false} FreeBidAtUnitRate(config: Config, env: Env)
    requires config.minLease <= config.maxLease
    requires env == Env(0, "", config.minLease, TaxPolicy(0, 0))
    ensures AfterBid(config, None, env, RATE_SEC_DENOM).Ok?
  {
    BidOnFreeNameAcceptedIff(config, None, env, RATE_SEC_DENOM);
  }

  /** Inside the counter delay, or after the bid delay, or at any time over a zero rate. */
  predicate OpenAt(config: Config, ns: NameState, now: nat) {
    || now < ns.beginTime + config.counterDelay
    || (&& config.counterDelay + config.bidDelay < U64
        && (ns.beginTime + config.counterDelay + config.bidDelay <= now || ns.rate == 0))
  }

  /** The checks of a bid on a running name: somebody other than the highest bidder, while the name is open, at a
      higher rate, with an affordable deposit that exceeds what is left of the present one. */
  predicate Outbids(config: Config, ns: NameState, env: Env, rate: nat) {
    && env.sender != ns.owner
    && OpenAt(config, ns, env.now)
    && ns.rate < rate
    && RentFits(ns, env.now)
    && ns.beginDeposit < env.funds + Rent(env.now - ns.beginTime, ns.rate)
    && RateFits(config, rate)
    && Affordable(config, env.funds, rate)
  }

  /** A bid on a running name is accepted exactly when it passes those checks, the status can be worked out and the
      coins can be sent. */
  lemma {:induction false} BidOnRunningNameAcceptedIff(config: Config, ns: NameState, env: Env, rate: Uint128)
    requires Stored(config, ns, env.now) && !RunOut(ns, env.now)
    ensures AfterBid(config, Some(ns), env, rate).Ok? <==>
            && Outbids(config, ns, env, rate)
            && (ns.beginTime + config.counterDelay <= env.now ==> config.counterDelay + config.transitionDelay < U64)
            && TaxFits(env.tax, config.stableDenom)
  {
    StoredStatus(config, ns, env.now);
    CheckBidIff(config, ns, env, rate);
    if CheckBid(config, ns, env, rate).Ok? {
      var left := CheckBid(config, ns, env, rate).value;
      MessageDefined(config, env, ns.owner, left);
      MessageDefined(config, env, ns.owner, env.funds - left);
    }
  }

  lemma {:induction false} CheckBidIff(config: Config, ns: NameState, env: Env, rate: Uint128)
    requires Stored(config, ns, env.now) && !RunOut(ns, env.now)
    ensures CheckBid(config, ns, env, rate).Ok? <==> Outbids(config, ns, env, rate)
    ensures CheckBid(config, ns, env, rate).Ok? ==> CheckBid(config, ns, env, rate).value < env.funds
  {
    RentCovered(config, ns, env.now);
    CeilIsRent(env.now - ns.beginTime, ns.rate);
    IntervalIsExact(config, env.funds, rate);
  }

  /** Funding: accepted exactly when it names the highest bidder, adds something, and the whole deposit pays for
      no more than the longest lease from now. A zero rate can never be funded. */
  lemma {:induction false} FundAcceptedIff(config: Config, ns: NameState, env: Env, owner: Address)
    requires Stored(config, ns, env.now)
    ensures AfterFund(config, ns, env, owner).Ok? <==>
            var seconds := config.maxLease + (env.now - ns.beginTime);
            && env.funds > 0
            && owner == ns.owner
            && env.funds + ns.beginDeposit < U128
            && seconds < U64
            && FloorDiv(Times(seconds, ns.rate), RATE_SEC_DENOM) < U128
            && (env.funds + ns.beginDeposit) * RATE_SEC_DENOM <= Times(seconds, ns.rate)
            && TaxFits(env.tax, config.stableDenom)
    ensures AfterFund(config, ns, env, owner).Ok? ==> ns.rate > 0
  {
    var seconds := config.maxLease + (env.now - ns.beginTime);
    if seconds < U64 {
      FloorDepositIs(seconds, ns.rate);
      FloorGalois(env.funds + ns.beginDeposit, Times(seconds, ns.rate), RATE_SEC_DENOM);
    }
    MessageDefined(config, env, ns.owner, env.funds);
  }

  /** A change of rate: accepted exactly from the owner of a running name past its counter delay, when the
      deposit left is affordable at the new rate. */
  lemma {:induction false} SetRateAcceptedIff(config: Config, ns: NameState, env: Env, rate: Uint128)
    requires Stored(config, ns, env.now)
    ensures AfterSetRate(config, ns, env, rate).Ok? <==>
            && env.sender == ns.owner
            && !RunOut(ns, env.now)
            && ns.beginTime + config.counterDelay <= env.now
            && config.counterDelay + config.transitionDelay < U64
            && RentFits(ns, env.now)
            && RateFits(config, rate)
            && Affordable(config, SaturatingSub(ns.beginDeposit, Rent(env.now - ns.beginTime, ns.rate)), rate)
  {
    StoredStatus(config, ns, env.now);
    CeilIsRent(env.now - ns.beginTime, ns.rate);
    IntervalIsExact(config, SaturatingSub(ns.beginDeposit, Rent(env.now - ns.beginTime, ns.rate)), rate);
  }
}
