/** What every reachable state of the auction keeps. */
module AuctionInvariant {
  import opened Prelude
  import opened LeaseMath
  import opened NameStates
  import opened Auctions
  import opened AuctionRuns

  /** The tenancy's book: everything paid in is either charged or still on deposit, and the charges are the
      exact rent rounded up once per charge. */
  predicate Booked(ns: NameState, t: Tenancy) {
    && t.paidIn == t.charged + ns.beginDeposit
    && t.rentDue <= t.charged * RATE_SEC_DENOM <= t.rentDue + (RATE_SEC_DENOM - 1) * t.charges
  }

  predicate Kept(config: Config, ns: NameState, t: Tenancy, clock: nat) {
    Stored(config, ns, clock) && Booked(ns, t)
  }

  predicate Inv(config: Config, w: World) {
    && w.names.Keys == w.tenancies.Keys
    && (forall n | n in w.names :: Kept(config, w.names[n], w.tenancies[n], w.clock))
    && w.flows.attached == w.flows.refunded + w.flows.collected
  }

  // ----- Records

  lemma {:induction false} IntervalLease(config: Config, deposit: Uint128, rate: Uint128)
    requires CheckInterval(config, deposit, rate).Ok?
    ensures rate == 0 ==> deposit == 0
    ensures rate > 0 ==> config.minLease <= LeaseSeconds(deposit, rate) <= config.maxLease
  {
    CeilIsRent(config.minLease, rate);
    if rate > 0 {
      RentGalois(config.minLease, deposit, rate);
      FloorBoundsLease(config.maxLease, deposit, rate);
    }
  }

  lemma {:induction false} StoredBid(config: Config, entry: Option<NameState>, env: Env, rate: Uint128)
    requires entry.Some? ==> Stored(config, entry.value, env.now)
    requires AfterBid(config, entry, env, rate).Ok?
    ensures var ns := AfterBid(config, entry, env, rate).value.state;
            && Stored(config, ns, env.now)
            && ns.owner == env.sender && ns.rate == rate && ns.beginTime == env.now && ns.beginDeposit == env.funds
  {
    if entry.Some? {
      StoredStatus(config, entry.value, env.now);
    }
    IntervalLease(config, env.funds, rate);
  }

  lemma {:induction false} StoredFund(config: Config, ns: NameState, env: Env, owner: Address)
    requires Stored(config, ns, env.now)
    requires AfterFund(config, ns, env, owner).Ok?
    ensures Stored(config, AfterFund(config, ns, env, owner).value.state, env.now)
    ensures ns.rate > 0
  {
    var combined := env.funds + ns.beginDeposit;
    var spent := env.now - ns.beginTime;
    assert combined <= DepositFromSecondsFloor(config.maxLease + spent, ns.rate).value;
    if ns.rate > 0 {
      FloorBoundsLease(config.maxLease + spent, combined, ns.rate);
      LeaseMonotone(ns.beginDeposit, combined, ns.rate);
    }
  }

  /** Changing the rate stores the rate asked for from now on, charges exactly the rent so far, with nothing
      saturated away, and puts the owner and the reference time on record without touching them. */
  lemma {:induction false} StoredSetRate(config: Config, ns: NameState, env: Env, rate: Uint128)
    requires Stored(config, ns, env.now)
    requires AfterSetRate(config, ns, env, rate).Ok?
    ensures var r := AfterSetRate(config, ns, env, rate).value.state;
            && Stored(config, r, env.now)
            && r.beginDeposit + Rent(env.now - ns.beginTime, ns.rate) == ns.beginDeposit
            && r == NameState(ns.owner, ns.controller, ns.transitionReference, rate, env.now, r.beginDeposit,
                              Some(ns.owner), ns.transitionReference)
            && AfterSetRate(config, ns, env, rate).value.messages == []
    ensures !RunOut(ns, env.now) && env.sender == ns.owner
  {
    StoredStatus(config, ns, env.now);
    RentCovered(config, ns, env.now);
    CeilIsRent(env.now - ns.beginTime, ns.rate);
    IntervalLease(config, AfterSetRate(config, ns, env, rate).value.state.beginDeposit, rate);
  }

  lemma {:induction false} ChargeBounds(due: nat, charged: nat, charges: nat, rent: nat)
    requires due <= charged * RATE_SEC_DENOM <= due + (RATE_SEC_DENOM - 1) * charges
    ensures var total := (charged + CeilDiv(rent, RATE_SEC_DENOM)) * RATE_SEC_DENOM;
            due + rent <= total <= due + rent + (RATE_SEC_DENOM - 1) * (charges + 1)
  {
    CeilBounds(rent, RATE_SEC_DENOM);
  }

  lemma {:induction false} BookedCharge(ns: NameState, after: NameState, t: Tenancy, now: nat)
    requires ns.beginTime <= now
    requires Booked(ns, t)
    requires after.beginDeposit + Rent(now - ns.beginTime, ns.rate) == ns.beginDeposit
    ensures Booked(after, t.(charged := t.charged + (ns.beginDeposit - after.beginDeposit),
                             rentDue := t.rentDue + Times(now - ns.beginTime, ns.rate),
                             charges := t.charges + 1))
  {
    ChargeBounds(t.rentDue, t.charged, t.charges, Times(now - ns.beginTime, ns.rate));
  }

  lemma {:induction false} ApplyKeeps(config: Config, entry: Option<NameState>, t: Tenancy, c: Call)
    requires entry.Some? ==> Kept(config, entry.value, t, c.env.now)
    requires Apply(config, entry, c).Ok?
    ensures var ns := Apply(config, entry, c).value.state;
            Kept(config, ns, RecordTenancy(t, entry, c, ns), c.env.now)
  {
    match c.action
    case Bid(rate) => StoredBid(config, entry, c.env, rate);
    case Fund(owner) => StoredFund(config, entry.value, c.env, owner);
    case SetRate(rate) =>
      StoredSetRate(config, entry.value, c.env, rate);
      BookedCharge(entry.value, Apply(config, entry, c).value.state, t, c.env.now);
    case TransferOwner(to) =>
    case SetController(_) =>
  }

  // ----- Flows

  lemma {:induction false} BidBalance(config: Config, entry: Option<NameState>, env: Env, rate: Uint128)
    requires AfterBid(config, entry, env, rate).Ok?
    ensures var messages := AfterBid(config, entry, env, rate).value.messages;
            RefundedBy(messages) + CollectedBy(messages) == env.funds
  {
    var messages := AfterBid(config, entry, env, rate).value.messages;
    if entry.Some? && !entry.value.Status(config, env.now).value.Expired? {
      BidFlows(config, entry.value, env, CheckBid(config, entry.value, env, rate).value);
    } else if messages != [] {
      FlowsOf(messages[0], []);
    }
  }

  /** In every accepted call the gross refund and the gross payment to the collector add up to the funds that
      a bid or a funding attached, and no other call sends anything. */
  lemma {:induction false} MessagesBalance(config: Config, entry: Option<NameState>, c: Call)
    requires Apply(config, entry, c).Ok?
    ensures var o := Apply(config, entry, c).value;
            RefundedBy(o.messages) + CollectedBy(o.messages)
            == if c.action.Bid? || c.action.Fund? then c.env.funds else 0
  {
    if c.action.Bid? {
      BidBalance(config, entry, c.env, c.action.rate);
    } else if c.action.Fund? {
      FlowsOf(Apply(config, entry, c).value.messages[0], []);
    }
  }

  // ----- Every call keeps the invariant

  lemma {:induction false} NextKeepsInv(config: Config, w: World, c: Call)
    requires Inv(config, w)
    requires w.clock <= c.env.now
    ensures Inv(config, Next(config, w, c))
  {
    var entry := Entry(w.names, c.name);
    if Apply(config, entry, c).Ok? {
      MessagesBalance(config, entry, c);
      ApplyKeeps(config, entry, if c.name in w.tenancies then w.tenancies[c.name] else Tenancy(0, 0, 0, 0), c);
    }
  }

  lemma {:induction false} RunKeepsInv(config: Config, clock: Uint64, calls: seq<Call>)
    requires Timely(clock, calls)
    ensures Inv(config, Run(config, Start(clock), calls))
  {
    if calls != [] {
      var n := |calls| - 1;
      RunKeepsInv(config, clock, calls[..n]);
      RunClock(config, Start(clock), calls[..n]);
      NextKeepsInv(config, Run(config, Start(clock), calls[..n]), calls[n]);
    }
  }

  // ----- Main results

  /** Timestamps and lease lengths of every stored name after any run: the three times are in order, a lease
      lasts at least the minimum from its beginning and at most the maximum from now, and the unchecked cut to
      64 bits never loses anything. */
  lemma {:induction false} LeaseLengthInvariant(config: Config, clock: Uint64, calls: seq<Call>, name: Name)
    requires Timely(clock, calls)
    requires name in Run(config, Start(clock), calls).names
    ensures var w := Run(config, Start(clock), calls);
            var ns := w.names[name];
            && ns.previousReference <= ns.transitionReference <= ns.beginTime <= w.clock
            && (ns.rate > 0 ==>
                  var lease := LeaseSeconds(ns.beginDeposit, ns.rate);
                  && ns.MaxSeconds() == Ok(Some(lease))
                  && ns.beginTime + config.minLease <= ns.beginTime + lease <= w.clock + config.maxLease)
            && (ns.rate == 0 ==> ns.MaxSeconds() == Ok(None) && ns.beginDeposit == 0)
  {
    RunKeepsInv(config, clock, calls);
    var w := Run(config, Start(clock), calls);
    assert Kept(config, w.names[name], w.tenancies[name], w.clock);
    StoredMaxSeconds(config, w.names[name], w.clock);
  }

  /** Hence no bid ever meets the impossible clock, and expiry is always reported with its true time. */
  lemma {:induction false} ClockFallbacksUnreachable(config: Config, clock: Uint64, calls: seq<Call>, c: Call)
    requires Timely(clock, calls)
    requires Run(config, Start(clock), calls).clock <= c.env.now
    ensures var names := Run(config, Start(clock), calls).names;
            && Apply(config, Entry(names, c.name), c) != Err(InvalidBlockTime)
            && (c.name in names ==>
                  var ns := names[c.name];
                  ns.Status(config, c.env.now).Ok? && ns.Status(config, c.env.now).value.Expired? ==>
                    && RunOut(ns, c.env.now)
                    && ns.Status(config, c.env.now).value.expireTime
                       == ns.beginTime + LeaseSeconds(ns.beginDeposit, ns.rate))
  {
    RunKeepsInv(config, clock, calls);
    var w := Run(config, Start(clock), calls);
    if c.name in w.names {
      var ns := w.names[c.name];
      assert Kept(config, ns, w.tenancies[c.name], w.clock);
      StoredLater(config, ns, w.clock, c.env.now);
      StoredStatus(config, ns, c.env.now);
      NoInvalidBlockTime(config, ns, c);
    }
  }

  lemma {:induction false} CheckBidHasTime(config: Config, ns: NameState, env: Env, rate: Uint128)
    requires ns.beginTime <= env.now
    ensures CheckBid(config, ns, env, rate) != Err(InvalidBlockTime)
  {
  }

  lemma {:induction false} NoInvalidBlockTime(config: Config, ns: NameState, c: Call)
    requires Stored(config, ns, c.env.now)
    ensures Apply(config, Some(ns), c) != Err(InvalidBlockTime)
  {
    if c.action.Bid? {
      StoredStatus(config, ns, c.env.now);
      CheckBidHasTime(config, ns, c.env, c.action.rate);
    }
  }

  /** Rent ledger: after any run, what a tenancy paid in is what it was charged plus what it has on deposit, and
      the charges are the exact integral of rate over time, exceeded by less than one unit per charge. */
  lemma {:induction false} RentLedger(config: Config, clock: Uint64, calls: seq<Call>, name: Name)
    requires Timely(clock, calls)
    requires name in Run(config, Start(clock), calls).names
    ensures var w := Run(config, Start(clock), calls);
            && name in w.tenancies
            && (var t := w.tenancies[name];
                && t.paidIn == t.charged + w.names[name].beginDeposit
                && t.rentDue <= t.charged * RATE_SEC_DENOM <= t.rentDue + (RATE_SEC_DENOM - 1) * t.charges)
  {
    RunKeepsInv(config, clock, calls);
    var w := Run(config, Start(clock), calls);
    assert Kept(config, w.names[name], w.tenancies[name], w.clock);
  }

  /** The refund is the deposit less the rent so far, and goes to the previous bidder. */
  lemma {:induction false} OutbidRefund(config: Config, ns: NameState, c: Call)
    requires Stored(config, ns, c.env.now)
    requires c.action.Bid? && !RunOut(ns, c.env.now) && Apply(config, Some(ns), c).Ok?
    ensures var messages := Apply(config, Some(ns), c).value.messages;
            && RefundedBy(messages) + Rent(c.env.now - ns.beginTime, ns.rate) == ns.beginDeposit
            && RefundedBy(messages) < c.env.funds
            && (forall m | m in messages && m.Refund? :: m.to == ns.owner)
  {
    StoredStatus(config, ns, c.env.now);
    RentCovered(config, ns, c.env.now);
    CeilIsRent(c.env.now - ns.beginTime, ns.rate);
    var left := CheckBid(config, ns, c.env, c.action.rate).value;
    BidFlows(config, ns, c.env, left);
    assert BidMessages(config, ns, c.env, left).value == Apply(config, Some(ns), c).value.messages;
  }

  /** The closing of a tenancy with book `t` by a bid that pays `refund` back. */
  predicate Settles(t: Tenancy, ns: NameState, now: nat, refund: nat) {
    && ns.beginTime <= now
    && refund + t.charged + Rent(now - ns.beginTime, ns.rate) == t.paidIn
    && (var rentDue := t.rentDue + Times(now - ns.beginTime, ns.rate);
        rentDue <= (t.paidIn - refund) * RATE_SEC_DENOM <= rentDue + (RATE_SEC_DENOM - 1) * (t.charges + 1))
  }

  lemma {:induction false} BookedSettles(ns: NameState, t: Tenancy, now: nat, refund: nat)
    requires ns.beginTime <= now
    requires Booked(ns, t)
    requires refund + Rent(now - ns.beginTime, ns.rate) == ns.beginDeposit
    ensures Settles(t, ns, now, refund)
  {
    ChargeBounds(t.rentDue, t.charged, t.charges, Times(now - ns.beginTime, ns.rate));
  }

  /** ... and an outbid closes the tenancy: the bidder gets back everything paid in less the charges, the last of
      which is the rent since the last change, so that the whole tenancy cost its exact rent rounded up once
      per period. */
  lemma {:induction false} OutbidSettlesTenancy(config: Config, clock: Uint64, calls: seq<Call>, c: Call)
    requires Timely(clock, calls)
    requires var w := Run(config, Start(clock), calls);
             && w.clock <= c.env.now
             && c.name in w.names && c.action.Bid? && !RunOut(w.names[c.name], c.env.now)
             && Apply(config, Some(w.names[c.name]), c).Ok?
    ensures var w := Run(config, Start(clock), calls);
            var messages := Apply(config, Some(w.names[c.name]), c).value.messages;
            && c.name in w.tenancies
            && Settles(w.tenancies[c.name], w.names[c.name], c.env.now, RefundedBy(messages))
            && (forall m | m in messages && m.Refund? :: m.to == w.names[c.name].owner)
  {
    RunKeepsInv(config, clock, calls);
    var w := Run(config, Start(clock), calls);
    var ns := w.names[c.name];
    assert Kept(config, ns, w.tenancies[c.name], w.clock);
    StoredLater(config, ns, w.clock, c.env.now);
    OutbidRefund(config, ns, c);
    BookedSettles(ns, w.tenancies[c.name], c.env.now, RefundedBy(Apply(config, Some(ns), c).value.messages));
  }

  /** Over any run the whole contract passes on, gross, exactly what bids and fundings attached. */
  lemma {:induction false} FlowsBalance(config: Config, clock: Uint64, calls: seq<Call>)
    requires Timely(clock, calls)
    ensures var f := Run(config, Start(clock), calls).flows;
            f.attached == f.refunded + f.collected
  {
    RunKeepsInv(config, clock, calls);
  }
}
