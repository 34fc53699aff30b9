/** The auction's transition system: what each accepted call stores for its name and which coins it sends. */
module Auctions {
  import opened Prelude
  import opened Terra
  import opened LeaseMath
  import opened NameStates

  /** Names are the byte strings under which the store files them. */
  type Byte = x: nat | x < 256
  type Name = seq<Byte>

  /** `gross` is the amount handed to the message builder, `net` the coin in the message itself. */
  datatype Message =
    | Refund(to: Address, gross: Uint128, net: Uint128)
    | ToCollector(gross: Uint128, net: Uint128)

  datatype Env = Env(now: Uint64, sender: Address, funds: Uint128, tax: TaxPolicy)

  datatype Action =
    | Bid(rate: Uint128)
    | Fund(expectedOwner: Address)
    | SetRate(rate: Uint128)
    | TransferOwner(to: Address)
    | SetController(controller: Address)

  datatype Call = Call(env: Env, name: Name, action: Action)

  datatype Outcome = Outcome(state: NameState, messages: seq<Message>)

  function Instantiate(config: Config): Result<Config> {
    if config.minLease <= config.maxLease then Ok(config) else Err(InvalidConfig)
  }

  function RefundMessage(config: Config, env: Env, to: Address, amount: Uint128): Result<Message> {
    var net :- DeductCoinTax(env.tax, config.stableDenom, amount);
    Ok(Refund(to, amount, net))
  }

  function CollectorMessage(config: Config, env: Env, amount: Uint128): Result<Message> {
    var net :- DeductCoinTax(env.tax, config.stableDenom, amount);
    Ok(ToCollector(amount, net))
  }

  /** The deposit must buy between the shortest and the longest lease at the given rate. */
  function CheckInterval(config: Config, deposit: Uint128, rate: Uint128): Result<()> {
    var least :- DepositFromSecondsCeil(config.minLease, rate);
    var most :- DepositFromSecondsFloor(config.maxLease, rate);
    if deposit < least || deposit > most then Err(BidInvalidInterval) else Ok(())
  }

  function AfterBidNew(config: Config, env: Env, rate: Uint128, reference: Uint64): Result<Outcome> {
    var _ :- CheckInterval(config, env.funds, rate);
    var state := NameState(env.sender, None, reference, rate, env.now, env.funds, None, 0);
    if env.funds != 0 then
      var collect :- CollectorMessage(config, env, env.funds);
      Ok(Outcome(state, [collect]))
    else
      Ok(Outcome(state, []))
  }

  /** Closed from the end of the counter delay to the end of the bid delay, unless the rate is zero. */
  function CheckOpen(config: Config, ns: NameState, seconds: Uint64): Result<()> {
    if seconds >= config.counterDelay then
      var end :- Add64(config.counterDelay, config.bidDelay);
      if seconds < end && ns.rate != 0 then Err(ClosedForBids) else Ok(())
    else
      Ok(())
  }

  /** The refund due to the previous bidder, once the new bid has been found high enough. */
  function CheckBid(config: Config, ns: NameState, env: Env, rate: Uint128): Result<Uint128> {
    if env.sender == ns.owner then
      Err(Unauthorized)
    else
      match ns.SecondsSinceBid(env.now)
      case None => Err(InvalidBlockTime)
      case Some(seconds) =>
        var _ :- CheckOpen(config, ns, seconds);
        if rate <= ns.rate then
          Err(BidRateTooLow(ns.rate))
        else
          var spent :- DepositFromSecondsCeil(seconds, ns.rate);
          var left: Uint128 := SaturatingSub(ns.beginDeposit, spent);
          if env.funds <= left then
            Err(BidDepositTooLow(left))
          else
            var _ :- CheckInterval(config, env.funds, rate);
            Ok(left)
  }

  function Outbid(ns: NameState, env: Env, rate: Uint128, owner: Option<Address>, reference: Uint64): NameState {
    ns.(previousOwner := owner,
        previousReference := reference,
        owner := env.sender,
        rate := rate,
        beginTime := env.now,
        beginDeposit := env.funds,
        transitionReference := if Some(env.sender) != owner then env.now else reference)
  }

  /** First the refund, if any, to the previous bidder; what is left of the funds goes to the collector. */
  function BidMessages(config: Config, ns: NameState, env: Env, left: Uint128): Result<seq<Message>> {
    var refunds :- if left != 0 then
                     (var refund :- RefundMessage(config, env, ns.owner, left);
                      Ok([refund]))
                   else
                     Ok([]);
    var excess :- Sub128(env.funds, left);
    var collect :- CollectorMessage(config, env, excess);
    Ok(refunds + [collect])
  }

  function AfterBidExisting(config: Config, ns: NameState, env: Env, rate: Uint128,
                            owner: Option<Address>, reference: Uint64): Result<Outcome>
  {
    var left :- CheckBid(config, ns, env, rate);
    var messages :- BidMessages(config, ns, env, left);
    Ok(Outcome(Outbid(ns, env, rate, owner, reference), messages))
  }

  function AfterBid(config: Config, entry: Option<NameState>, env: Env, rate: Uint128): Result<Outcome> {
    match entry
    case None =>
      AfterBidNew(config, env, rate, 0)
    case Some(ns) =>
      var status :- ns.Status(config, env.now);
      match status
      case Valid(owner, reference) => AfterBidExisting(config, ns, env, rate, Some(owner), reference)
      case TransitionDelay(owner, reference) => AfterBidExisting(config, ns, env, rate, Some(owner), reference)
      case CounterDelay(owner, _, reference) => AfterBidExisting(config, ns, env, rate, owner, reference)
      case Expired(expireTime, _) => AfterBidNew(config, env, rate, expireTime)
  }

  /** Nothing here asks whether the name has expired. */
  function AfterFund(config: Config, ns: NameState, env: Env, expectedOwner: Address): Result<Outcome> {
    if env.funds == 0 then
      Err(Unfunded)
    else if ns.owner != expectedOwner then
      Err(UnexpectedState)
    else
      var combined :- Add128(env.funds, ns.beginDeposit);
      var most :- ns.MaxAllowedDeposit(config, env.now);
      if combined > most then
        Err(BidInvalidInterval)
      else
        var collect :- CollectorMessage(config, env, env.funds);
        Ok(Outcome(ns.(beginDeposit := combined), [collect]))
  }

  function AfterSetRate(config: Config, ns: NameState, env: Env, rate: Uint128): Result<Outcome> {
    var status :- ns.Status(config, env.now);
    if !status.CanSetRate(env.sender) then
      Err(Unauthorized)
    else
      var seconds :- Sub64(env.now, ns.beginTime);
      var spent :- DepositFromSecondsCeil(seconds, ns.rate);
      var left: Uint128 := SaturatingSub(ns.beginDeposit, spent);
      var _ :- CheckInterval(config, left, rate);
      Ok(Outcome(ns.(rate := rate, beginTime := env.now, beginDeposit := left,
                     previousOwner := Some(ns.owner), previousReference := ns.transitionReference), []))
  }

  function AfterTransfer(config: Config, ns: NameState, env: Env, to: Address): Result<Outcome> {
    var status :- ns.Status(config, env.now);
    if status.CanTransferNameOwner(env.sender) then
      if status.CounterDelay? then
        Ok(Outcome(ns.(previousOwner := Some(to)), []))
      else
        Ok(Outcome(ns.(owner := to), []))
    else if status.CanTransferBidOwner(env.sender) then
      Ok(Outcome(ns.(owner := to), []))
    else
      Err(Unauthorized)
  }

  function AfterSetController(config: Config, ns: NameState, env: Env, controller: Address): Result<Outcome> {
    var status :- ns.Status(config, env.now);
    if !status.CanSetController(env.sender) then
      Err(Unauthorized)
    else
      Ok(Outcome(ns.(controller := Some(controller)), []))
  }

  /** One call on the stored entry of its name. Only a bid may find the name missing. */
  function Apply(config: Config, entry: Option<NameState>, c: Call): Result<Outcome> {
    if c.action.Bid? then
      AfterBid(config, entry, c.env, c.action.rate)
    else
      match entry
      case None => Err(NotFound)
      case Some(ns) =>
        match c.action
        case Fund(owner) => AfterFund(config, ns, c.env, owner)
        case SetRate(rate) => AfterSetRate(config, ns, c.env, rate)
        case TransferOwner(to) => AfterTransfer(config, ns, c.env, to)
        case SetController(controller) => AfterSetController(config, ns, c.env, controller)
  }

  // ----- What the name's owner sees

  datatype NameView = NameView(
    nameOwner: Option<Address>,
    bidOwner: Option<Address>,
    controller: Option<Address>,
    rate: Uint128,
    beginTime: Uint64,
    beginDeposit: Uint128,
    currentDeposit: Uint128,
    counterDelayEnd: Uint64,
    transitionDelayEnd: Uint64,
    bidDelayEnd: Uint64,
    expireTime: Option<Uint64>)

  function StatusOwners(status: OwnerStatus): (Option<Address>, Option<Address>) {
    match status
    case Expired(_, _) => (None, None)
    case CounterDelay(nameOwner, bidOwner, _) => (nameOwner, Some(bidOwner))
    case Valid(owner, _) => (Some(owner), Some(owner))
    case TransitionDelay(owner, _) => (Some(owner), Some(owner))
  }

  function View(config: Config, now: Uint64, ns: NameState): Result<NameView> {
    var counterDelayEnd :- ns.CounterDelayEnd(config);
    var transitionDelayEnd :- ns.TransitionDelayEnd(config);
    var bidDelayEnd :- ns.BidDelayEnd(config);
    var expireTime :- ns.ExpireTime();
    var status :- ns.Status(config, now);
    var currentDeposit :- ns.CurrentDeposit(now);
    var (nameOwner, bidOwner) := StatusOwners(status);
    Ok(NameView(nameOwner, bidOwner, ns.controller, ns.rate, ns.beginTime, ns.beginDeposit,
                currentDeposit, counterDelayEnd, transitionDelayEnd, bidDelayEnd, expireTime))
  }
}

/** Runs of the auction beside a book of what each tenancy was charged. */
module AuctionRuns {
  import opened Prelude
  import opened NameStates
  import opened Auctions

  /** The deposits of one tenancy, from the bid that opened it: paid in by the bid and later funding, charged at
      every change of rate. `rentDue` is the exact rent of the charged periods in day-fractions of a unit. */
  datatype Tenancy = Tenancy(paidIn: nat, charged: nat, rentDue: nat, charges: nat)

  /** Gross flows of the whole contract. */
  datatype Flows = Flows(attached: nat, refunded: nat, collected: nat)

  datatype World = World(
    names: map<Name, NameState>,
    tenancies: map<Name, Tenancy>,
    flows: Flows,
    clock: Uint64)

  function Entry(names: map<Name, NameState>, name: Name): Option<NameState> {
    if name in names then Some(names[name]) else None
  }

  function RefundedBy(messages: seq<Message>): nat {
    if messages == [] then 0
    else (if messages[0].Refund? then messages[0].gross else 0) + RefundedBy(messages[1..])
  }

  function CollectedBy(messages: seq<Message>): nat {
    if messages == [] then 0
    else (if messages[0].ToCollector? then messages[0].gross else 0) + CollectedBy(messages[1..])
  }

  lemma FlowsOf(m: Message, rest: seq<Message>)
    ensures RefundedBy([m]) == if m.Refund? then m.gross else 0
    ensures CollectedBy([m]) == if m.ToCollector? then m.gross else 0
    ensures RefundedBy([m] + rest) == RefundedBy([m]) + RefundedBy(rest)
    ensures CollectedBy([m] + rest) == CollectedBy([m]) + CollectedBy(rest)
  {
    assert ([m] + rest)[1..] == rest;
    assert [m][1..] == [];
  }

  /** The refund and the payment to the collector share the attached funds. */
  lemma {:induction false} BidFlows(config: Config, ns: NameState, env: Env, left: Uint128)
    requires BidMessages(config, ns, env, left).Ok?
    ensures var messages := BidMessages(config, ns, env, left).value;
            && RefundedBy(messages) == left <= env.funds
            && CollectedBy(messages) == env.funds - left
            && (forall m | m in messages && m.Refund? :: m.to == ns.owner)
  {
    var messages := BidMessages(config, ns, env, left).value;
    var collect := CollectorMessage(config, env, env.funds - left).value;
    FlowsOf(collect, []);
    if left == 0 {
      assert messages == [collect];
    } else {
      var refund := RefundMessage(config, env, ns.owner, left).value;
      assert messages == [refund] + [collect];
      FlowsOf(refund, [collect]);
    }
  }

  function RecordFlows(f: Flows, c: Call, messages: seq<Message>): Flows {
    var attached := if c.action.Bid? || c.action.Fund? then c.env.funds else 0;
    Flows(f.attached + attached, f.refunded + RefundedBy(messages), f.collected + CollectedBy(messages))
  }

  function RecordTenancy(t: Tenancy, before: Option<NameState>, c: Call, after: NameState): Tenancy {
    match c.action
    case Bid(_) => Tenancy(c.env.funds, 0, 0, 0)
    case Fund(_) => t.(paidIn := t.paidIn + c.env.funds)
    case SetRate(_) =>
      if before.None? then t
      else
        var ns := before.value;
        t.(charged := t.charged + SaturatingSub(ns.beginDeposit, after.beginDeposit),
           rentDue := t.rentDue + Times(SaturatingSub(c.env.now, ns.beginTime), ns.rate),
           charges := t.charges + 1)
    case _ => t
  }

  function Start(clock: Uint64): World {
    World(map[], map[], Flows(0, 0, 0), clock)
  }

  function Next(config: Config, w: World, c: Call): World {
    var entry := Entry(w.names, c.name);
    match Apply(config, entry, c)
    case Err(_) => w.(clock := c.env.now)
    case Ok(o) =>
      var t := if c.name in w.tenancies then w.tenancies[c.name] else Tenancy(0, 0, 0, 0);
      World(w.names[c.name := o.state],
            w.tenancies[c.name := RecordTenancy(t, entry, c, o.state)],
            RecordFlows(w.flows, c, o.messages),
            c.env.now)
  }

  function Run(config: Config, w: World, calls: seq<Call>): World {
    if calls == [] then w
    else Next(config, Run(config, w, calls[..|calls| - 1]), calls[|calls| - 1])
  }

  /** Block time never runs backwards. */
  predicate Timely(clock: Uint64, calls: seq<Call>) {
    && (forall i :: 0 <= i < |calls| ==> clock <= calls[i].env.now)
    && (forall i, j :: 0 <= i < j < |calls| ==> calls[i].env.now <= calls[j].env.now)
  }

  lemma {:induction false} RunClock(config: Config, w: World, calls: seq<Call>)
    ensures Run(config, w, calls).clock == if calls == [] then w.clock else calls[|calls| - 1].env.now
  {
    if calls != [] {
      RunClock(config, w, calls[..|calls| - 1]);
    }
  }
}
