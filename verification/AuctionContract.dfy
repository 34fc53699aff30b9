/** The auction contract: its stored names and the calls that reassign them. */
module AuctionContracts {
  import opened Prelude
  import opened Terra
  import opened LeaseMath
  import opened NameStates
  import opened Auctions
  import opened AuctionRuns
  import opened AuctionInvariant

  class Auction {
    const config: Config
    var names: map<Name, NameState>

    /** The observer's books and clock. */
    ghost var tenancies: map<Name, Tenancy>
    ghost var flows: Flows
    ghost var clock: Uint64

    ghost function Observed(): World
      reads this
    {
      World(names, tenancies, flows, clock)
    }

    ghost predicate Valid()
      reads this
    {
      Inv(config, Observed())
    }

    /** What a call on `name` that computes `spec` from `before` must leave behind. */
    ghost predicate Commits(spec: Result<Outcome>, name: Name, before: map<Name, NameState>,
                            r: Result<seq<Message>>)
      reads this
    {
      match spec
      case Ok(o) => r == Ok(o.messages) && names == before[name := o.state]
      case Err(e) => r == Err(e) && names == before
    }

    constructor (config: Config, ghost now: Uint64)
      requires config.minLease <= config.maxLease
      ensures this.config == config
      ensures Observed() == Start(now)
      ensures Valid()
    {
      this.config := config;
      names, tenancies, flows, clock := map[], map[], Flows(0, 0, 0), now;
    }

    /** Nothing is set up under a configuration whose shortest lease is longer than its longest. */
    static method Instantiate(config: Config, ghost now: Uint64) returns (r: Result<Auction>)
      ensures r.Ok? <==> Auctions.Instantiate(config).Ok?
      ensures r.Err? ==> r == Err(InvalidConfig)
      ensures r.Ok? ==>
                && fresh(r.value)
                && r.value.config == config
                && r.value.Observed() == Start(now)
                && r.value.Valid()
    {
      if !(config.minLease <= config.maxLease) {
        return Err(InvalidConfig);
      }
      var auction := new Auction(config, now);
      return Ok(auction);
    }

    method BidName(env: Env, name: Name, rate: Uint128) returns (r: Result<seq<Message>>)
      modifies this`names
      ensures Commits(AfterBid(config, Entry(old(names), name), env, rate), name, old(names), r)
    {
      if name !in names {
        r := BidNew(env, name, rate, 0);
        return;
      }
      var nameState := names[name];
      var status :- nameState.Status(config, env.now);
      match status {
        case Valid(owner, reference) =>
          r := BidExisting(env, name, rate, nameState, Some(owner), reference);
        case TransitionDelay(owner, reference) =>
          r := BidExisting(env, name, rate, nameState, Some(owner), reference);
        case CounterDelay(owner, _, reference) =>
          r := BidExisting(env, name, rate, nameState, owner, reference);
        case Expired(expireTime, _) =>
          r := BidNew(env, name, rate, expireTime);
      }
    }

    method BidExisting(env: Env, name: Name, rate: Uint128, stored: NameState, owner: Option<Address>,
                       reference: Uint64)
      returns (r: Result<seq<Message>>)
      modifies this`names
      ensures Commits(AfterBidExisting(config, stored, env, rate, owner, reference), name, old(names), r)
    {
      if env.sender == stored.owner {
        return Err(Unauthorized);
      }
      var sinceBid := stored.SecondsSinceBid(env.now);
      if sinceBid.None? {
        return Err(InvalidBlockTime);
      }
      var seconds := sinceBid.value;
      if seconds >= config.counterDelay {
        var bidDelayEnd :- Add64(config.counterDelay, config.bidDelay);
        if seconds < bidDelayEnd && stored.rate != 0 {
          return Err(ClosedForBids);
        }
      }
      if rate <= stored.rate {
        return Err(BidRateTooLow(stored.rate));
      }
      var spent :- DepositFromSecondsCeil(seconds, stored.rate);
      var left: Uint128 := SaturatingSub(stored.beginDeposit, spent);
      if env.funds <= left {
        return Err(BidDepositTooLow(left));
      }
      var least :- DepositFromSecondsCeil(config.minLease, rate);
      var most :- DepositFromSecondsFloor(config.maxLease, rate);
      if env.funds < least || env.funds > most {
        return Err(BidInvalidInterval);
      }

      assert CheckBid(config, stored, env, rate) == Ok(left);

      var previousBidder := stored.owner;
      var nameState := stored;
      nameState := nameState.(previousOwner := owner);
      nameState := nameState.(previousReference := reference);
      nameState := nameState.(owner := env.sender);
      nameState := nameState.(rate := rate);
      nameState := nameState.(beginTime := env.now);
      nameState := nameState.(beginDeposit := env.funds);
      if Some(nameState.owner) != owner {
        nameState := nameState.(transitionReference := env.now);
      } else {
        nameState := nameState.(transitionReference := nameState.previousReference);
      }

      var messages := [];
      if left != 0 {
        var refund :- RefundMessage(config, env, previousBidder, left);
        messages := messages + [refund];
        assert messages == [refund];
      }
      var excess :- Sub128(env.funds, left);
      var collect :- CollectorMessage(config, env, excess);
      assert [] + [collect] == [collect];
      messages := messages + [collect];
      assert BidMessages(config, stored, env, left) == Ok(messages);
      // The storage write waits for the last check: an abort rolls it back.
      names := names[name := nameState];
      return Ok(messages);
    }

    method BidNew(env: Env, name: Name, rate: Uint128, reference: Uint64) returns (r: Result<seq<Message>>)
      modifies this`names
      ensures Commits(AfterBidNew(config, env, rate, reference), name, old(names), r)
    {
      var least :- DepositFromSecondsCeil(config.minLease, rate);
      var most :- DepositFromSecondsFloor(config.maxLease, rate);
      if env.funds < least || env.funds > most {
        return Err(BidInvalidInterval);
      }
      var nameState := NameState(env.sender, None, reference, rate, env.now, env.funds, None, 0);
      var messages := [];
      if env.funds != 0 {
        var collect :- CollectorMessage(config, env, env.funds);
        messages := messages + [collect];
        assert messages == [collect];
      }
      names := names[name := nameState];
      return Ok(messages);
    }

    method FundName(env: Env, name: Name, expectedOwner: Address) returns (r: Result<seq<Message>>)
      modifies this`names
      ensures Commits(Apply(config, Entry(old(names), name), Call(env, name, Fund(expectedOwner))),
                      name, old(names), r)
    {
      if name !in names {
        return Err(NotFound);
      }
      var nameState := names[name];
      if env.funds == 0 {
        return Err(Unfunded);
      }
      if nameState.owner != expectedOwner {
        return Err(UnexpectedState);
      }
      var combined :- Add128(env.funds, nameState.beginDeposit);
      var most :- nameState.MaxAllowedDeposit(config, env.now);
      if combined > most {
        return Err(BidInvalidInterval);
      }
      nameState := nameState.(beginDeposit := combined);
      var collect :- CollectorMessage(config, env, env.funds);
      names := names[name := nameState];
      return Ok([collect]);
    }

    method SetNameRate(env: Env, name: Name, rate: Uint128) returns (r: Result<seq<Message>>)
      modifies this`names
      ensures Commits(Apply(config, Entry(old(names), name), Call(env, name, SetRate(rate))), name, old(names), r)
    {
      if name !in names {
        return Err(NotFound);
      }
      var nameState := names[name];
      var status :- nameState.Status(config, env.now);
      if !status.CanSetRate(env.sender) {
        return Err(Unauthorized);
      }
      var seconds :- Sub64(env.now, nameState.beginTime);
      var spent :- DepositFromSecondsCeil(seconds, nameState.rate);
      var left: Uint128 := SaturatingSub(nameState.beginDeposit, spent);
      var least :- DepositFromSecondsCeil(config.minLease, rate);
      var most :- DepositFromSecondsFloor(config.maxLease, rate);
      if left < least || left > most {
        return Err(BidInvalidInterval);
      }
      nameState := nameState.(rate := rate);
      nameState := nameState.(beginTime := env.now);
      nameState := nameState.(beginDeposit := left);
      nameState := nameState.(previousOwner := Some(nameState.owner));
      nameState := nameState.(previousReference := nameState.transitionReference);
      names := names[name := nameState];
      return Ok([]);
    }

    method TransferNameOwner(env: Env, name: Name, to: Address) returns (r: Result<seq<Message>>)
      modifies this`names
      ensures Commits(Apply(config, Entry(old(names), name), Call(env, name, TransferOwner(to))), name, old(names), r)
    {
      if name !in names {
        return Err(NotFound);
      }
      var nameState := names[name];
      var status :- nameState.Status(config, env.now);
      if status.CanTransferNameOwner(env.sender) {
        if status.CounterDelay? {
          nameState := nameState.(previousOwner := Some(to));
        } else {
          nameState := nameState.(owner := to);
        }
      } else if status.CanTransferBidOwner(env.sender) {
        nameState := nameState.(owner := to);
      } else {
        return Err(Unauthorized);
      }
      names := names[name := nameState];
      return Ok([]);
    }

    method SetNameController(env: Env, name: Name, controller: Address) returns (r: Result<seq<Message>>)
      modifies this`names
      ensures Commits(Apply(config, Entry(old(names), name), Call(env, name, SetController(controller))),
                      name, old(names), r)
    {
      if name !in names {
        return Err(NotFound);
      }
      var nameState := names[name];
      var status :- nameState.Status(config, env.now);
      if !status.CanSetController(env.sender) {
        return Err(Unauthorized);
      }
      nameState := nameState.(controller := Some(controller));
      names := names[name := nameState];
      return Ok([]);
    }

    /** The entry point. Whatever is called, the contract moves as the transition system says,
        the observer books the call, and the invariant is kept. */
    method Execute(c: Call) returns (r: Result<seq<Message>>)
      requires Valid()
      requires clock <= c.env.now
      modifies this
      ensures Valid()
      ensures Observed() == Next(config, old(Observed()), c)
      ensures Commits(Apply(config, Entry(old(names), c.name), c), c.name, old(names), r)
    {
      ghost var before := Observed();
      match c.action {
        case Bid(rate) => r := BidName(c.env, c.name, rate);
        case Fund(owner) => r := FundName(c.env, c.name, owner);
        case SetRate(rate) => r := SetNameRate(c.env, c.name, rate);
        case TransferOwner(to) => r := TransferNameOwner(c.env, c.name, to);
        case SetController(controller) => r := SetNameController(c.env, c.name, controller);
      }
      ghost var after := Next(config, before, c);
      tenancies, flows, clock := after.tenancies, after.flows, after.clock;
      assert Observed() == after;
      NextKeepsInv(config, before, c);
    }
  }
}
