/** The full effect of every call on the auction: record, messages and reason of refusal. */
module AuctionOutcomes {
  import opened Prelude
  import opened Terra
  import opened LeaseMath
  import opened NameStates
  import opened Auctions
  import opened AuctionRuns
  import opened AuctionInvariant
  import opened Ownership
  import opened Acceptance

  // ----- Coins

  predicate PaysCollector(config: Config, env: Env, m: Message, amount: nat) {
    m.ToCollector? && m.gross == amount && m.net == NetAmount(env.tax, config.stableDenom, amount)
  }

  predicate Refunds(config: Config, env: Env, m: Message, to: Address, amount: nat) {
    m.Refund? && m.to == to && m.gross == amount && m.net == NetAmount(env.tax, config.stableDenom, amount)
  }

  /** The refund, if there is anything to refund, and then the rest of the attached funds. */
  predicate Settlement(config: Config, env: Env, messages: seq<Message>, bidder: Address, left: nat) {
    && left < env.funds
    && |messages| == (if left == 0 then 1 else 2)
    && (left > 0 ==> Refunds(config, env, messages[0], bidder, left))
    && PaysCollector(config, env, messages[|messages| - 1], env.funds - left)
  }

  lemma {:induction false} CollectorMessageIs(config: Config, env: Env, amount: Uint128)
    ensures var r := CollectorMessage(config, env, amount);
            && (r.Ok? <==> TaxFits(env.tax, config.stableDenom))
            && (r.Ok? ==> PaysCollector(config, env, r.value, amount))
            && (r.Err? ==> r.error == Overflow)
  {
    DeductCoinTaxIs(env.tax, config.stableDenom, amount);
  }

  lemma {:induction false} RefundMessageIs(config: Config, env: Env, to: Address, amount: Uint128)
    ensures var r := RefundMessage(config, env, to, amount);
            && (r.Ok? <==> TaxFits(env.tax, config.stableDenom))
            && (r.Ok? ==> Refunds(config, env, r.value, to, amount))
            && (r.Err? ==> r.error == Overflow)
  {
    DeductCoinTaxIs(env.tax, config.stableDenom, amount);
  }

  lemma {:induction false} BidMessagesAre(config: Config, ns: NameState, env: Env, left: Uint128)
    requires left < env.funds
    ensures var r := BidMessages(config, ns, env, left);
            && (r.Ok? <==> TaxFits(env.tax, config.stableDenom))
            && (r.Ok? ==> Settlement(config, env, r.value, ns.owner, left))
            && (r.Err? ==> r.error == Overflow)
  {
    RefundMessageIs(config, env, ns.owner, left);
    CollectorMessageIs(config, env, env.funds - left);
  }

  // ----- Bids

  predicate Free(entry: Option<NameState>, now: nat) {
    entry.Some? ==> RunOut(entry.value, now)
  }

  /** When the last lease of a free name ended; zero if there was none. */
  function LostAt(entry: Option<NameState>): nat
    requires entry.Some? ==> entry.value.rate > 0
  {
    match entry
    case None => 0
    case Some(ns) => ns.beginTime + LeaseSeconds(ns.beginDeposit, ns.rate)
  }

  /** A bid on a free name: a record that starts over with the bidder as its only trace, and every coin of the deposit
      to the collector, none back to anyone. */
  lemma {:induction false} FreeBidOutcome(config: Config, entry: Option<NameState>, env: Env, rate: Uint128)
    requires entry.Some? ==> Stored(config, entry.value, env.now)
    requires Free(entry, env.now)
    ensures var r := AfterBid(config, entry, env, rate);
            && (r == Err(BidInvalidInterval) <==> RateFits(config, rate) && !Affordable(config, env.funds, rate))
            && (r.Err? ==> r.error in {BidInvalidInterval, Overflow})
            && (r.Ok? ==>
                  && LostAt(entry) < U64
                  && r.value.state == NameState(env.sender, None, LostAt(entry), rate, env.now, env.funds, None, 0)
                  && (if env.funds == 0 then r.value.messages == []
                      else |r.value.messages| == 1 && PaysCollector(config, env, r.value.messages[0], env.funds))
                  && RefundedBy(r.value.messages) == 0
                  && CollectedBy(r.value.messages) == env.funds)
  {
    if entry.Some? {
      StoredStatus(config, entry.value, env.now);
    }
    IntervalIsExact(config, env.funds, rate);
    CollectorMessageIs(config, env, env.funds);
    if CollectorMessage(config, env, env.funds).Ok? {
      FlowsOf(CollectorMessage(config, env, env.funds).value, []);
    }
  }

  /** What is left of the present deposit. */
  function Left(ns: NameState, now: nat): nat {
    SaturatingSub(ns.beginDeposit, Rent(SaturatingSub(now, ns.beginTime), ns.rate))
  }

  /** The checks of a bid on a running name in their order, as reasons for refusal. */
  predicate RightBidder(config: Config, ns: NameState, env: Env) {
    StatusFits(config, ns, env.now) && env.sender != ns.owner
  }

  predicate HighEnough(config: Config, ns: NameState, env: Env, rate: nat) {
    RightBidder(config, ns, env) && OpenAt(config, ns, env.now) && ns.rate < rate && RentFits(ns, env.now)
  }

  lemma {:induction false} CheckBidIs(config: Config, ns: NameState, env: Env, rate: Uint128)
    requires Stored(config, ns, env.now) && !RunOut(ns, env.now)
    requires StatusFits(config, ns, env.now)
    ensures var r, left := CheckBid(config, ns, env, rate), Left(ns, env.now);
            && (r == Err(Unauthorized) <==> env.sender == ns.owner)
            && (r.Err? && r.error.BidRateTooLow? <==>
                  RightBidder(config, ns, env) && OpenAt(config, ns, env.now) && rate <= ns.rate)
            && (r.Err? && r.error.BidRateTooLow? ==> r.error.rate == ns.rate)
            && (r.Err? && r.error.BidDepositTooLow? <==> HighEnough(config, ns, env, rate) && env.funds <= left)
            && (r.Err? && r.error.BidDepositTooLow? ==> r.error.deposit == left)
            && (r == Err(BidInvalidInterval) <==>
                  && HighEnough(config, ns, env, rate) && left < env.funds
                  && RateFits(config, rate) && !Affordable(config, env.funds, rate))
            && (r.Ok? ==> r.value == left < env.funds)
  {
    CeilIsRent(env.now - ns.beginTime, ns.rate);
    IntervalIsExact(config, env.funds, rate);
  }

  /** A bid on a running name: the bidder leads with the rate and the deposit of the bid, the holder and their
      reference time go on record, the controller stays. The highest bidder so far gets back what is left of
      their deposit, and the collector the rest of the new one. */
  lemma {:induction false} OutbidOutcome(config: Config, ns: NameState, env: Env, rate: Uint128)
    requires Stored(config, ns, env.now) && !RunOut(ns, env.now)
    ensures var r, left := AfterBid(config, Some(ns), env, rate), Left(ns, env.now);
            && (r == Err(Unauthorized) <==> StatusFits(config, ns, env.now) && env.sender == ns.owner)
            && (r.Err? && r.error.BidRateTooLow? <==>
                  RightBidder(config, ns, env) && OpenAt(config, ns, env.now) && rate <= ns.rate)
            && (r.Err? && r.error.BidRateTooLow? ==> r.error.rate == ns.rate)
            && (r.Err? && r.error.BidDepositTooLow? <==> HighEnough(config, ns, env, rate) && env.funds <= left)
            && (r.Err? && r.error.BidDepositTooLow? ==> r.error.deposit == left)
            && (r == Err(BidInvalidInterval) <==>
                  && HighEnough(config, ns, env, rate) && left < env.funds
                  && RateFits(config, rate) && !Affordable(config, env.funds, rate))
            && (r.Ok? ==>
                  var holder, since := Holder(config, ns, env.now), HeldSince(config, ns, env.now);
                  && r.value.state
                     == NameState(env.sender, ns.controller, if Some(env.sender) == holder then since else env.now,
                                  rate, env.now, env.funds, holder, since)
                  && Settlement(config, env, r.value.messages, ns.owner, left)
                  && RefundedBy(r.value.messages) == left == ns.beginDeposit - Rent(env.now - ns.beginTime, ns.rate)
                  && CollectedBy(r.value.messages) == env.funds - left)
  {
    StoredStatus(config, ns, env.now);
    if StatusFits(config, ns, env.now) {
      CheckBidIs(config, ns, env, rate);
      var checked := CheckBid(config, ns, env, rate);
      if checked.Ok? {
        RentCovered(config, ns, env.now);
        BidMessagesAre(config, ns, env, checked.value);
        if BidMessages(config, ns, env, checked.value).Ok? {
          BidFlows(config, ns, env, checked.value);
        }
      }
    }
  }

  // ----- Calls on a stored name

  /** Only a bid may name what is not in the store. */
  lemma {:induction false} NotFoundIff(config: Config, entry: Option<NameState>, c: Call)
    requires entry.Some? ==> Stored(config, entry.value, c.env.now)
    ensures Apply(config, entry, c) == Err(NotFound) <==> entry.None? && !c.action.Bid?
  {
    if entry.Some? {
      StoredStatus(config, entry.value, c.env.now);
    }
    if c.action.Bid? && Free(entry, c.env.now) {
      FreeBidOutcome(config, entry, c.env, c.action.rate);
    } else if c.action.Bid? {
      BidNeverNotFound(config, entry.value, c.env, c.action.rate);
    } else if c.action.Fund? && entry.Some? {
      FundOutcome(config, entry.value, c.env, c.action.expectedOwner);
    }
  }

  lemma {:induction false} BidNeverNotFound(config: Config, ns: NameState, env: Env, rate: Uint128)
    requires Stored(config, ns, env.now) && !RunOut(ns, env.now)
    ensures AfterBid(config, Some(ns), env, rate) != Err(NotFound)
  {
    StoredStatus(config, ns, env.now);
    var checked := CheckBid(config, ns, env, rate);
    assert checked != Err(NotFound);
    if checked.Ok? {
      assert checked.value < env.funds;
      BidMessagesAre(config, ns, env, checked.value);
    }
  }

  /** A funding adds its funds to the deposit and changes nothing else, on a running name and on one that has run
      out; the collector gets all of it. */
  lemma {:induction false} FundOutcome(config: Config, ns: NameState, env: Env, owner: Address)
    requires Stored(config, ns, env.now)
    ensures var r, total := AfterFund(config, ns, env, owner), env.funds + ns.beginDeposit;
            var seconds := config.maxLease + (env.now - ns.beginTime);
            && (r == Err(Unfunded) <==> env.funds == 0)
            && (r == Err(UnexpectedState) <==> env.funds > 0 && owner != ns.owner)
            && (r == Err(BidInvalidInterval) <==>
                  && env.funds > 0 && owner == ns.owner && total < U128 && seconds < U64
                  && FloorDiv(Times(seconds, ns.rate), RATE_SEC_DENOM) < U128
                  && Times(seconds, ns.rate) < total * RATE_SEC_DENOM)
            && (r.Err? ==> r.error in {Unfunded, UnexpectedState, BidInvalidInterval, Overflow})
            && (r.Ok? ==>
                  && total < U128
                  && r.value.state == ns.(beginDeposit := total)
                  && |r.value.messages| == 1
                  && PaysCollector(config, env, r.value.messages[0], env.funds)
                  && RefundedBy(r.value.messages) == 0
                  && CollectedBy(r.value.messages) == env.funds)
  {
    var seconds := config.maxLease + (env.now - ns.beginTime);
    if seconds < U64 {
      FloorDepositIs(seconds, ns.rate);
      FloorGalois(env.funds + ns.beginDeposit, Times(seconds, ns.rate), RATE_SEC_DENOM);
    }
    CollectorMessageIs(config, env, env.funds);
    if CollectorMessage(config, env, env.funds).Ok? {
      FlowsOf(CollectorMessage(config, env, env.funds).value, []);
    }
  }

  predicate MaySetRate(config: Config, ns: NameState, env: Env) {
    && !RunOut(ns, env.now)
    && ns.beginTime + config.counterDelay <= env.now
    && StatusFits(config, ns, env.now)
    && env.sender == ns.owner
  }

  /** Who is refused a change of rate, and for what. */
  lemma {:induction false} SetRateRefused(config: Config, ns: NameState, env: Env, rate: Uint128)
    requires Stored(config, ns, env.now)
    ensures var r := AfterSetRate(config, ns, env, rate);
            && (r == Err(Unauthorized) <==>
                  !MaySetRate(config, ns, env) && (RunOut(ns, env.now) || StatusFits(config, ns, env.now)))
            && (r == Err(BidInvalidInterval) <==>
                  && MaySetRate(config, ns, env) && RentFits(ns, env.now)
                  && RateFits(config, rate) && !Affordable(config, Left(ns, env.now), rate))
            && (r.Err? ==> r.error in {Unauthorized, BidInvalidInterval, Overflow})
  {
    StoredStatus(config, ns, env.now);
    CeilIsRent(env.now - ns.beginTime, ns.rate);
    IntervalIsExact(config, Left(ns, env.now), rate);
  }

  /** The owner on record may transfer during a counter delay, the highest bidder at any time of the lease. */
  predicate MayTransfer(config: Config, ns: NameState, env: Env) {
    && !RunOut(ns, env.now)
    && StatusFits(config, ns, env.now)
    && (env.sender == ns.owner || Some(env.sender) == Holder(config, ns, env.now))
  }

  /** A transfer is accepted exactly from those two. It replaces the one that the sender is in the record, the owner
      first, and nothing else: the reference times in particular stay. */
  lemma {:induction false} TransferOutcome(config: Config, ns: NameState, env: Env, to: Address)
    requires Stored(config, ns, env.now)
    ensures var r := AfterTransfer(config, ns, env, to);
            && (r.Ok? <==> MayTransfer(config, ns, env))
            && (r.Err? ==> r.error == if RunOut(ns, env.now) || StatusFits(config, ns, env.now) then Unauthorized
                                      else Overflow)
            && (r.Ok? ==>
                  r.value == Outcome(
                    if env.now < ns.beginTime + config.counterDelay && Some(env.sender) == ns.previousOwner
                    then ns.(previousOwner := Some(to))
                    else ns.(owner := to),
                    []))
  {
    StoredStatus(config, ns, env.now);
  }

  /** A controller is appointed exactly by the name's owner, and nothing else changes. */
  lemma {:induction false} SetControllerOutcome(config: Config, ns: NameState, env: Env, controller: Address)
    requires Stored(config, ns, env.now)
    ensures var r := AfterSetController(config, ns, env, controller);
            && (r.Ok? <==> NameOwner(config, Some(ns), env.now) == Some(env.sender))
            && (r.Err? ==> r.error == if RunOut(ns, env.now) || StatusFits(config, ns, env.now) then Unauthorized
                                      else Overflow)
            && (r.Ok? ==> r.value == Outcome(ns.(controller := Some(controller)), []))
  {
    StoredStatus(config, ns, env.now);
  }

  // ----- Where the money goes, over runs

  /** What a call has to refund: the rest of the deposit that it outbids. */
  function RefundDue(config: Config, entry: Option<NameState>, c: Call): nat {
    if c.action.Bid? && !Free(entry, c.env.now) && Apply(config, entry, c).Ok?
    then Left(entry.value, c.env.now)
    else 0
  }

  function RefundsDue(config: Config, w: World, calls: seq<Call>): nat {
    if calls == [] then 0
    else
      var n := |calls| - 1;
      var entry := Entry(Run(config, w, calls[..n]).names, calls[n].name);
      RefundsDue(config, w, calls[..n]) + RefundDue(config, entry, calls[n])
  }

  /** An accepted call sends back what it has to refund, and the rest of what it attached to the collector: all of it,
      for a funding or a bid on a free name. */
  lemma {:induction false} CallFlows(config: Config, entry: Option<NameState>, c: Call)
    requires entry.Some? ==> Stored(config, entry.value, c.env.now)
    requires Apply(config, entry, c).Ok?
    ensures var messages := Apply(config, entry, c).value.messages;
            && RefundedBy(messages) == RefundDue(config, entry, c)
            && CollectedBy(messages) + RefundDue(config, entry, c)
               == if c.action.Bid? || c.action.Fund? then c.env.funds else 0
  {
    MessagesBalance(config, entry, c);
    match c.action
    case Bid(rate) =>
      if Free(entry, c.env.now) {
        FreeBidOutcome(config, entry, c.env, rate);
      } else {
        OutbidOutcome(config, entry.value, c.env, rate);
      }
    case Fund(owner) => FundOutcome(config, entry.value, c.env, owner);
    case SetRate(_) =>
    case TransferOwner(_) =>
    case SetController(_) =>
  }

  /** Over any run bidders get back exactly what was left of the deposits that were outbid, and the collector exactly
      the rest of all that was attached. */
  lemma {:induction false} RunFlows(config: Config, clock: Uint64, calls: seq<Call>)
    requires Timely(clock, calls)
    ensures var f := Run(config, Start(clock), calls).flows;
            && f.refunded == RefundsDue(config, Start(clock), calls)
            && f.collected + RefundsDue(config, Start(clock), calls) == f.attached
  {
    FlowsBalance(config, clock, calls);
    if calls != [] {
      var n := |calls| - 1;
      RunFlows(config, clock, calls[..n]);
      RunKeepsInv(config, clock, calls[..n]);
      RunClock(config, Start(clock), calls[..n]);
      var before := Run(config, Start(clock), calls[..n]);
      var entry := Entry(before.names, calls[n].name);
      if entry.Some? {
        assert AuctionInvariant.Kept(config, entry.value, before.tenancies[calls[n].name], before.clock);
        StoredLater(config, entry.value, before.clock, calls[n].env.now);
      }
      if Apply(config, entry, calls[n]).Ok? {
        CallFlows(config, entry, calls[n]);
      }
    }
  }
}
