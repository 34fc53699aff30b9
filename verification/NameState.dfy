/** One name's record, its clock-dependent status, and who may do what in each status. */
module NameStates {
  import opened Prelude
  import opened LeaseMath

  datatype Config = Config(
    collector: Address,
    stableDenom: string,
    minLease: Uint64,
    maxLease: Uint64,
    counterDelay: Uint64,
    transitionDelay: Uint64,
    bidDelay: Uint64)

  datatype OwnerStatus =
    | CounterDelay(nameOwner: Option<Address>, bidOwner: Address, reference: Uint64)
    | TransitionDelay(owner: Address, reference: Uint64)
    | Valid(owner: Address, reference: Uint64)
    | Expired(expireTime: Uint64, reference: Uint64)
  {
    predicate CanSetRate(sender: Address) {
      (Valid? || TransitionDelay?) && sender == owner
    }

    predicate CanTransferNameOwner(sender: Address) {
      match this
      case Valid(owner, _) => sender == owner
      case TransitionDelay(owner, _) => sender == owner
      case CounterDelay(Some(owner), _, _) => sender == owner
      case _ => false
    }

    predicate CanTransferBidOwner(sender: Address) {
      CounterDelay? && sender == bidOwner
    }

    predicate CanSetController(sender: Address) {
      CanTransferNameOwner(sender)
    }
  }

  datatype NameState = NameState(
    owner: Address,
    controller: Option<Address>,
    transitionReference: Uint64,
    rate: Uint128,
    beginTime: Uint64,
    beginDeposit: Uint128,
    previousOwner: Option<Address>,
    previousReference: Uint64)
  {
    function SecondsSinceBid(now: Uint64): Option<Uint64> {
      if beginTime <= now then Some(now - beginTime) else None
    }

    function SecondsSinceTransition(now: Uint64): Option<Uint64> {
      if transitionReference <= now then Some(now - transitionReference) else None
    }

    function CounterDelayEnd(config: Config): Result<Uint64> {
      Add64(beginTime, config.counterDelay)
    }

    /** A zero reference time marks a name that nobody owned before. */
    function TransitionDelayEnd(config: Config): Result<Uint64> {
      if transitionReference == 0 then
        Ok(beginTime)
      else
        var counterEnd :- Add64(transitionReference, config.counterDelay);
        Add64(counterEnd, config.transitionDelay)
    }

    function BidDelayEnd(config: Config): Result<Uint64> {
      var delay :- if rate != 0 then Add64(config.counterDelay, config.bidDelay) else Ok(0);
      Add64(beginTime, delay)
    }

    function MaxSeconds(): Result<Option<Uint64>> {
      SecondsFromDeposit(beginDeposit, rate)
    }

    function ExpireTime(): Result<Option<Uint64>> {
      var seconds :- MaxSeconds();
      match seconds
      case None => Ok(None)
      case Some(s) =>
        var end :- Add64(beginTime, s);
        Ok(Some(end))
    }

    /** Aborts once the rent passes the deposit: the last subtraction is unguarded. */
    function CurrentDeposit(now: Uint64): Result<Uint128> {
      match SecondsSinceBid(now)
      case None => Ok(0)
      case Some(seconds) =>
        var spent :- DepositFromSecondsCeil(seconds, rate);
        Sub128(beginDeposit, spent)
    }

    function MaxAllowedDeposit(config: Config, now: Uint64): Result<Uint128> {
      match SecondsSinceBid(now)
      case None => Ok(0)
      case Some(spent) =>
        var seconds :- Add64(config.maxLease, spent);
        DepositFromSecondsFloor(seconds, rate)
    }

    /** The status past the expiry check. */
    function RunningStatus(config: Config, now: Uint64, sinceBid: Uint64): Result<OwnerStatus> {
      match SecondsSinceTransition(now)
      case None => Ok(Expired(0, transitionReference))
      case Some(sinceTransition) =>
        if sinceBid < config.counterDelay then
          Ok(CounterDelay(previousOwner, owner, previousReference))
        else
          var delay :- Add64(config.counterDelay, config.transitionDelay);
          if sinceTransition < delay then
            Ok(TransitionDelay(owner, transitionReference))
          else
            Ok(Valid(owner, transitionReference))
    }

    function Status(config: Config, now: Uint64): Result<OwnerStatus> {
      match SecondsSinceBid(now)
      case None => Ok(Expired(0, transitionReference))
      case Some(sinceBid) =>
        var seconds :- MaxSeconds();
        if seconds.Some? && sinceBid >= seconds.value then
          var end :- Add64(beginTime, seconds.value);
          Ok(Expired(end, transitionReference))
        else
          RunningStatus(config, now, sinceBid)
    }
  }

  // ----- Lease length, as numbers

  /** The name's rent has used up its deposit. A zero rate never does. */
  predicate RunOut(ns: NameState, now: nat) {
    ns.rate > 0 && ns.beginTime + LeaseSeconds(ns.beginDeposit, ns.rate) <= now
  }

  /** What every stored record satisfies at any time from its last update on. */
  predicate Stored(config: Config, ns: NameState, clock: nat) {
    && ns.previousReference <= ns.transitionReference <= ns.beginTime <= clock
    && (ns.rate == 0 ==> ns.beginDeposit == 0)
    && (ns.rate > 0 ==>
          var lease := LeaseSeconds(ns.beginDeposit, ns.rate);
          && config.minLease <= lease < U64
          && ns.beginTime + lease <= clock + config.maxLease)
  }

  lemma StoredLater(config: Config, ns: NameState, clock: nat, later: nat)
    requires Stored(config, ns, clock)
    requires clock <= later
    ensures Stored(config, ns, later)
  {
  }

  /** On a stored record the cut to 64 bits loses nothing. */
  lemma {:induction false} StoredMaxSeconds(config: Config, ns: NameState, clock: nat)
    requires Stored(config, ns, clock)
    ensures ns.MaxSeconds() == Ok(if ns.rate == 0 then None else Some(LeaseSeconds(ns.beginDeposit, ns.rate)))
  {
    if ns.rate > 0 {
      SecondsExact(ns.beginDeposit, ns.rate);
    }
  }

  /** The status of a stored record, in full: both fallbacks for a clock that runs backwards are dead, an
      expired name always reports its true expiry, and the only abort left is a delay sum beyond 64 bits. */
  lemma {:induction false} StoredStatus(config: Config, ns: NameState, now: Uint64)
    requires Stored(config, ns, now)
    ensures ns.Status(config, now) ==
            if RunOut(ns, now) then
              Ok(Expired(ns.beginTime + LeaseSeconds(ns.beginDeposit, ns.rate), ns.transitionReference))
            else if now < ns.beginTime + config.counterDelay then
              Ok(CounterDelay(ns.previousOwner, ns.owner, ns.previousReference))
            else if config.counterDelay + config.transitionDelay >= U64 then
              Err(Overflow)
            else if now < ns.transitionReference + config.counterDelay + config.transitionDelay then
              Ok(TransitionDelay(ns.owner, ns.transitionReference))
            else
              Ok(Valid(ns.owner, ns.transitionReference))
  {
    StoredMaxSeconds(config, ns, now);
  }

  /** On a name that has not run out, the rent so far is covered: no saturating subtraction saturates. */
  lemma {:induction false} RentCovered(config: Config, ns: NameState, now: nat)
    requires Stored(config, ns, now)
    requires !RunOut(ns, now)
    ensures Rent(now - ns.beginTime, ns.rate) <= ns.beginDeposit
  {
    if ns.rate > 0 {
      RentGalois(now - ns.beginTime, ns.beginDeposit, ns.rate);
    }
  }

  /** The remaining deposit is defined exactly up to and including the expiry time, as long as the rent product
      fits in 128 bits. */
  lemma {:induction false} CurrentDepositDefined(config: Config, ns: NameState, now: Uint64)
    requires Stored(config, ns, now)
    ensures ns.CurrentDeposit(now).Ok?
            <==> Times(now - ns.beginTime, ns.rate) + RATE_SEC_DENOM < U128
                 && (ns.rate == 0 || now <= ns.beginTime + LeaseSeconds(ns.beginDeposit, ns.rate))
    ensures ns.CurrentDeposit(now).Ok? ==>
              ns.CurrentDeposit(now).value + Rent(now - ns.beginTime, ns.rate) == ns.beginDeposit
  {
    var spent := now - ns.beginTime;
    CeilIsRent(spent, ns.rate);
    if ns.rate > 0 {
      RentGalois(spent, ns.beginDeposit, ns.rate);
    }
  }

  /** ... and it only falls. */
  lemma {:induction false} CurrentDepositFalls(ns: NameState, t1: Uint64, t2: Uint64)
    requires ns.beginTime <= t1 <= t2
    requires ns.CurrentDeposit(t1).Ok? && ns.CurrentDeposit(t2).Ok?
    ensures ns.CurrentDeposit(t2).value <= ns.CurrentDeposit(t1).value
  {
    CeilIsRent(t1 - ns.beginTime, ns.rate);
    CeilIsRent(t2 - ns.beginTime, ns.rate);
    RentMonotone(t1 - ns.beginTime, t2 - ns.beginTime, ns.rate);
  }
}
