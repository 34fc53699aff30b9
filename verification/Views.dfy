/** The reported times of a name against the status the contract acts on. */
module Views {
  import opened Prelude
  import opened Terra
  import opened LeaseMath
  import opened NameStates
  import opened Auctions
  import Ownership

  datatype Phase = InCounterDelay | InTransitionDelay | InForce | Over

  function PhaseOf(status: OwnerStatus): Phase {
    match status
    case CounterDelay(_, _, _) => InCounterDelay
    case TransitionDelay(_, _) => InTransitionDelay
    case Valid(_, _) => InForce
    case Expired(_, _) => Over
  }

  /** How a reader of the reported times would place `now`, expiry first. */
  function PhaseFromTimes(v: NameView, now: nat): Phase {
    if v.expireTime.Some? && v.expireTime.value <= now then Over
    else if now < v.counterDelayEnd then InCounterDelay
    else if now < v.transitionDelayEnd then InTransitionDelay
    else InForce
  }

  /** Every sum that the view computes stays within 64 bits, and the rent product within 128. */
  predicate Fits(config: Config, ns: NameState, now: nat) {
    && ns.beginTime + config.counterDelay < U64
    && (ns.transitionReference != 0 ==> ns.transitionReference + config.counterDelay + config.transitionDelay < U64)
    && (ns.rate > 0 ==> ns.beginTime + config.counterDelay + config.bidDelay < U64)
    && (ns.rate > 0 ==> ns.beginTime + LeaseSeconds(ns.beginDeposit, ns.rate) < U64)
    && (!RunOut(ns, now) && ns.beginTime + config.counterDelay <= now ==>
          config.counterDelay + config.transitionDelay < U64)
    && (ns.beginTime <= now ==> Times(now - ns.beginTime, ns.rate) + RATE_SEC_DENOM < U128)
  }

  /** Overflows aside, a stored name can be viewed exactly up to and including its expiry time; after that the
      query aborts on the remaining deposit. So the expired answer, with no owner, is given at one instant only.
      What is reported is the owner that the contract obeys, the highest bidder, the record's own entries, the
      deposit less rent and the true ends of the delays. */
  lemma {:induction false} ViewDefinedIff(config: Config, ns: NameState, now: Uint64)
    requires Stored(config, ns, now)
    ensures View(config, now, ns).Ok?
            <==> Fits(config, ns, now)
                 && (ns.rate == 0 || now <= ns.beginTime + LeaseSeconds(ns.beginDeposit, ns.rate))
    ensures View(config, now, ns).Ok? ==>
              (View(config, now, ns).value.bidOwner == None <==>
               ns.rate > 0 && now == ns.beginTime + LeaseSeconds(ns.beginDeposit, ns.rate))
    ensures View(config, now, ns).Ok? ==>
              var v := View(config, now, ns).value;
              && v.currentDeposit + Rent(now - ns.beginTime, ns.rate) == ns.beginDeposit
              && v.expireTime
                 == (if ns.rate == 0 then None else Some(ns.beginTime + LeaseSeconds(ns.beginDeposit, ns.rate)))
              && v.nameOwner == Ownership.NameOwner(config, Some(ns), now)
              && v.bidOwner == (if RunOut(ns, now) then None else Some(ns.owner))
              && v.controller == ns.controller
              && (v.rate, v.beginTime, v.beginDeposit) == (ns.rate, ns.beginTime, ns.beginDeposit)
              && v.counterDelayEnd == ns.beginTime + config.counterDelay
              && v.transitionDelayEnd
                 == (if ns.transitionReference == 0 then ns.beginTime
                     else ns.transitionReference + config.counterDelay + config.transitionDelay)
              && v.bidDelayEnd
                 == ns.beginTime + if ns.rate == 0 then 0 else config.counterDelay + config.bidDelay
  {
    StoredMaxSeconds(config, ns, now);
    assert ns.ExpireTime().Ok? <==> ns.rate > 0 ==> ns.beginTime + LeaseSeconds(ns.beginDeposit, ns.rate) < U64 by {
      StoredMaxSeconds(config, ns, now);
    }
    StoredStatus(config, ns, now);
    CurrentDepositDefined(config, ns, now);
  }

  /** The reported times place `now` in the same phase as the status, except in one case: a name that nobody owned
      before is still in its first transition delay by the status while the view reports that delay as over. */
  lemma {:induction false} ViewAgreesWithStatusIff(config: Config, ns: NameState, now: Uint64)
    requires Stored(config, ns, now)
    requires View(config, now, ns).Ok?
    ensures ns.Status(config, now).Ok?
    ensures PhaseFromTimes(View(config, now, ns).value, now) == PhaseOf(ns.Status(config, now).value)
            <==> || ns.transitionReference != 0
                 || RunOut(ns, now)
                 || now < ns.beginTime + config.counterDelay
                 || now >= config.counterDelay + config.transitionDelay
  {
    StoredMaxSeconds(config, ns, now);
    StoredStatus(config, ns, now);
  }

  /** A rival's bid on a running name is turned away as closed exactly between the reported end of the counter
      delay and the reported end of the bid delay. */
  lemma {:induction false} ClosedForBidsIff(config: Config, ns: NameState, env: Env, rate: Uint128,
                                            counterEnd: Uint64, bidEnd: Uint64)
    requires Stored(config, ns, env.now) && !RunOut(ns, env.now)
    requires ns.Status(config, env.now).Ok?
    requires env.sender != ns.owner
    requires ns.CounterDelayEnd(config) == Ok(counterEnd) && ns.BidDelayEnd(config) == Ok(bidEnd)
    ensures AfterBid(config, Some(ns), env, rate) == Err(ClosedForBids) <==> counterEnd <= env.now < bidEnd
    ensures View(config, env.now, ns).Ok? ==>
              && View(config, env.now, ns).value.counterDelayEnd == counterEnd
              && View(config, env.now, ns).value.bidDelayEnd == bidEnd
  {
    StoredStatus(config, ns, env.now);
    BidErrors(config, ns, env, rate);
  }

  /** The gate decides: no later check of a bid reports it closed. */
  lemma {:induction false} BidErrors(config: Config, ns: NameState, env: Env, rate: Uint128)
    requires ns.beginTime <= env.now && env.sender != ns.owner
    requires ns.Status(config, env.now).Ok? && !ns.Status(config, env.now).value.Expired?
    ensures AfterBid(config, Some(ns), env, rate) == Err(ClosedForBids)
            <==> CheckOpen(config, ns, env.now - ns.beginTime) == Err(ClosedForBids)
  {
    var open := CheckOpen(config, ns, env.now - ns.beginTime);
    if open.Ok? {
      assert CheckBid(config, ns, env, rate) != Err(ClosedForBids);
    }
  }

  /** The highest bidder, by contrast, is always refused. */
  lemma {:induction false} OwnBidRefused(config: Config, ns: NameState, env: Env, rate: Uint128)
    requires Stored(config, ns, env.now) && !RunOut(ns, env.now)
    requires env.sender == ns.owner && ns.Status(config, env.now).Ok?
    ensures AfterBid(config, Some(ns), env, rate) == Err(Unauthorized)
  {
    StoredStatus(config, ns, env.now);
  }
}
