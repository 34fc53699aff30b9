/** Both contracts together: the auction's payments to its collector are deposits into the pool. */
module Joint {
  import opened Prelude
  import Terra
  import NameStates
  import A = Auctions
  import AR = AuctionRuns
  import AI = AuctionInvariant
  import P = Pools
  import PR = PoolRuns
  import PI = PoolInvariant
  import PT = PoolTheorems
  import Payments

  datatype Event =
    | AuctionCall(a: A.Call)
    | PoolCall(p: P.Call)
  {
    function Now(): Uint64 {
      match this
      case AuctionCall(c) => c.env.now
      case PoolCall(c) => c.env.now
    }
  }

  /** `direct` counts deposits into the pool that do not come from the auction, `forwarded` the coins that the auction
      has sent to its collector. */
  datatype Chain = Chain(auction: AR.World, pool: PR.World, direct: nat, forwarded: nat)

  const AUCTION: Address := "auction"

  /** The collector counts only coins of its own denomination. */
  function DepositCall(denom: string, poolDenom: string, env: A.Env, net: Uint128): P.Call {
    P.Call(P.Env(env.now, AUCTION, if denom == poolDenom then net else 0, env.tax), P.Deposit)
  }

  function NetPaid(messages: seq<A.Message>): nat {
    if messages == [] then 0
    else (if messages[0].ToCollector? then messages[0].net else 0) + NetPaid(messages[1..])
  }

  /** The payments of one auction transaction, executed in order. One that aborts takes the whole
      transaction with it. */
  function Forward(denom: string, w: PR.World, env: A.Env, messages: seq<A.Message>): Result<PR.World>
    decreases |messages|
  {
    if messages == [] then Ok(w)
    else if messages[0].Refund? then Forward(denom, w, env, messages[1..])
    else
      var call := DepositCall(denom, w.pool.config.stableDenom, env, messages[0].net);
      var _ :- P.Apply(w.pool, call);
      Forward(denom, PR.Next(w, call), env, messages[1..])
  }

  function Idle(c: Chain, now: Uint64): Chain {
    c.(auction := c.auction.(clock := now), pool := c.pool.(clock := now))
  }

  function Next(config: NameStates.Config, c: Chain, e: Event): Chain {
    var idle := Idle(c, e.Now());
    match e
    case PoolCall(call) =>
      var accepted := call.action.Deposit? && P.Apply(c.pool.pool, call).Ok?;
      idle.(pool := PR.Next(c.pool, call), direct := c.direct + if accepted then call.env.funds else 0)
    case AuctionCall(call) =>
      match A.Apply(config, AR.Entry(c.auction.names, call.name), call)
      case Err(_) => idle
      case Ok(o) =>
        match Forward(config.stableDenom, idle.pool, call.env, o.messages)
        case Err(_) => idle
        case Ok(pool) => Chain(AR.Next(config, c.auction, call), pool, c.direct, c.forwarded + NetPaid(o.messages))
  }

  function Start(poolConfig: P.Config, clock: Uint64): Chain {
    Chain(AR.Start(clock), PR.Start(poolConfig, clock), 0, 0)
  }

  function Run(config: NameStates.Config, c: Chain, events: seq<Event>): Chain {
    if events == [] then c
    else Next(config, Run(config, c, events[..|events| - 1]), events[|events| - 1])
  }

  predicate Timely(clock: Uint64, events: seq<Event>) {
    && (forall i :: 0 <= i < |events| ==> clock <= events[i].Now())
    && (forall i, j :: 0 <= i < j < |events| ==> events[i].Now() <= events[j].Now())
  }

  /** Of a coin sent the pool counts all or nothing. */
  function Counted(denom: string, poolDenom: string, amount: nat): nat {
    if denom == poolDenom then amount else 0
  }

  ghost predicate Inv(config: NameStates.Config, c: Chain) {
    && AI.Inv(config, c.auction)
    && PI.Inv(c.pool)
    && c.pool.clock == c.auction.clock
    && c.pool.ledger.deposited
       == c.direct + Counted(config.stableDenom, c.pool.pool.config.stableDenom, c.forwarded)
    && c.forwarded <= c.auction.flows.collected
  }

  lemma {:induction false} PoolConfigKept(w: PR.World, call: P.Call)
    ensures PR.Next(w, call).pool.config == w.pool.config
  {
    match call.action
    case Deposit =>
    case Unstake(_) =>
    case WithdrawTokens(_, _) =>
    case WithdrawDividends(_) =>
    case Receive(_, _) =>
  }

  /** Forwarding deposits exactly the coins sent to the collector, in its denomination: no more than was paid, gross. */
  lemma {:induction false} ForwardKeeps(config: NameStates.Config, w: PR.World, env: A.Env, messages: seq<A.Message>)
    requires PI.Inv(w) && w.clock == env.now
    requires Payments.Deducted(config, env.tax, messages)
    requires Forward(config.stableDenom, w, env, messages).Ok?
    ensures var v := Forward(config.stableDenom, w, env, messages).value;
            && PI.Inv(v) && v.clock == env.now
            && v.pool.config == w.pool.config
            && v.ledger.deposited
               == w.ledger.deposited + Counted(config.stableDenom, w.pool.config.stableDenom, NetPaid(messages))
            && NetPaid(messages) <= AR.CollectedBy(messages)
    decreases |messages|
  {
    if messages != [] {
      assert messages[0] in messages;
      if messages[0].Refund? {
        ForwardKeeps(config, w, env, messages[1..]);
      } else {
        var call := DepositCall(config.stableDenom, w.pool.config.stableDenom, env, messages[0].net);
        Terra.DeductCoinTaxPays(env.tax, config.stableDenom, messages[0].gross);
        PI.NextKeepsInv(w, call);
        PoolConfigKept(w, call);
        PoolCallDeposits(w, call);
        ForwardKeeps(config, PR.Next(w, call), env, messages[1..]);
      }
    }
  }

  lemma {:induction false} PoolCallDeposits(w: PR.World, call: P.Call)
    ensures PR.Next(w, call).ledger.deposited
            == w.ledger.deposited + if call.action.Deposit? && P.Apply(w.pool, call).Ok? then call.env.funds else 0
    ensures PR.Next(w, call).clock == call.env.now
  {
  }

  lemma {:induction false} IdleKeeps(config: NameStates.Config, c: Chain, now: Uint64)
    requires Inv(config, c) && c.auction.clock <= now
    ensures Inv(config, Idle(c, now))
  {
    PI.ClockKeeps(c.pool, now);
    forall n | n in c.auction.names
      ensures AI.Kept(config, c.auction.names[n], c.auction.tenancies[n], now)
    {
      NameStates.StoredLater(config, c.auction.names[n], c.auction.clock, now);
    }
  }

  lemma {:induction false} AuctionCallKeeps(config: NameStates.Config, c: Chain, call: A.Call)
    requires Inv(config, c) && c.auction.clock <= call.env.now
    ensures Inv(config, Next(config, c, AuctionCall(call)))
    ensures Next(config, c, AuctionCall(call)).pool.pool.config == c.pool.pool.config
  {
    IdleKeeps(config, c, call.env.now);
    var entry := AR.Entry(c.auction.names, call.name);
    if A.Apply(config, entry, call).Ok? {
      var messages := A.Apply(config, entry, call).value.messages;
      var idle := Idle(c, call.env.now);
      if Forward(config.stableDenom, idle.pool, call.env, messages).Ok? {
        Payments.AppliedMessages(config, entry, call);
        ForwardKeeps(config, idle.pool, call.env, messages);
        AI.NextKeepsInv(config, c.auction, call);
      }
    }
  }

  lemma {:induction false} NextKeepsInv(config: NameStates.Config, c: Chain, e: Event)
    requires Inv(config, c) && c.auction.clock <= e.Now()
    ensures Inv(config, Next(config, c, e))
    ensures Next(config, c, e).auction.clock == e.Now()
    ensures Next(config, c, e).pool.pool.config == c.pool.pool.config
  {
    match e
    case AuctionCall(call) => AuctionCallKeeps(config, c, call);
    case PoolCall(call) =>
      IdleKeeps(config, c, call.env.now);
      PI.NextKeepsInv(c.pool, call);
      PoolCallDeposits(c.pool, call);
      PoolConfigKept(c.pool, call);
  }

  lemma {:induction false} RunKeepsInv(config: NameStates.Config, poolConfig: P.Config, clock: Uint64,
                                       events: seq<Event>)
    requires Timely(clock, events)
    ensures var c := Run(config, Start(poolConfig, clock), events);
            && Inv(config, c)
            && c.pool.pool.config == poolConfig
            && c.auction.clock == if events == [] then clock else events[|events| - 1].Now()
  {
    if events == [] {
      PI.RunKeepsInv(poolConfig, clock, []);
    } else {
      var n := |events| - 1;
      RunKeepsInv(config, poolConfig, clock, events[..n]);
      NextKeepsInv(config, Run(config, Start(poolConfig, clock), events[..n]), events[n]);
    }
  }

  /** End to end, over any interleaving of calls to the two contracts: all that the pool has paid, owes and carries
      and all that outbid bidders were refunded is covered by the funds attached to bids and fundings and the
      direct deposits, up to the one unit per distribution after the first that the pool credits twice. The pool is
      given exactly the coins that the auction sends it, if both count the same denomination. */
  lemma {:induction false} EverythingIsPaidFor(config: NameStates.Config, poolConfig: P.Config, clock: Uint64,
                                               events: seq<Event>)
    requires Timely(clock, events)
    ensures var c := Run(config, Start(poolConfig, clock), events);
            && c.pool.ledger.deposited
               == c.direct + Counted(config.stableDenom, poolConfig.stableDenom, c.forwarded)
            && c.forwarded <= c.auction.flows.collected
            && PT.Committed(c.pool) + c.auction.flows.refunded
               <= c.auction.flows.attached + c.direct + SaturatingSub(c.pool.ledger.distributions, 1)
  {
    RunKeepsInv(config, poolConfig, clock, events);
    PT.CommittedBounds(Run(config, Start(poolConfig, clock), events).pool);
  }
}
