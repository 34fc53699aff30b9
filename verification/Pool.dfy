/** The staking pool's transition system: what each accepted call stores and sends. */
module Pools {
  import opened Prelude
  import opened StakeStates
  import opened Terra

  datatype Config = Config(baseToken: Address, stableDenom: string, unstakeDelay: Uint64)

  datatype Pool = Pool(
    config: Config,
    multiplier: Uint128,
    totalStaked: Uint128,
    residual: Uint128,
    stakes: map<Address, Stake>)

  /** `gross` is the amount handed to the message builder, `net` the coin in the message itself. */
  datatype Message =
    | SendDividend(to: Address, gross: Uint128, net: Uint128)
    | SendTokens(to: Address, amount: Uint128)

  datatype Env = Env(now: Uint64, sender: Address, funds: Uint128, tax: TaxPolicy)

  datatype Action =
    | Deposit
    | Unstake(amount: Uint128)
    | WithdrawTokens(amount: Uint128, to: Option<Address>)
    | WithdrawDividends(to: Option<Address>)
    | Receive(tokenSender: Address, amount: Uint128)

  datatype Call = Call(env: Env, action: Action)

  datatype Outcome = Outcome(pool: Pool, messages: seq<Message>)

  function Instantiate(config: Config): Pool {
    Pool(config, 0, 0, 0, map[])
  }

  function AfterDeposit(p: Pool, env: Env): Result<Outcome> {
    var deposit :- Add128(env.funds, p.residual);
    if p.totalStaked != 0 then
      var perStake :- MultiplyRatio(deposit, FRACTION, p.totalStaked);
      var spent :- MultiplyRatio(p.totalStaked, perStake, FRACTION);
      var residual :- Sub128(deposit, spent);
      var multiplier :- Add128(p.multiplier, perStake);
      Ok(Outcome(p.(multiplier := multiplier, residual := residual), []))
    else
      Ok(Outcome(p.(residual := deposit), []))
  }

  /** The staker's record once `amount` more tokens are staked. */
  function StakedMore(p: Pool, tokenSender: Address, amount: Uint128): Result<Stake> {
    if tokenSender in p.stakes then
      var settled :- p.stakes[tokenSender].Settled(p.multiplier);
      var staked :- Add128(settled.staked, amount);
      Ok(settled.(staked := staked))
    else
      Ok(Stake(amount, 0, None, 0, p.multiplier, 0))
  }

  function AfterReceive(p: Pool, env: Env, tokenSender: Address, amount: Uint128): Result<Outcome> {
    if env.sender != p.config.baseToken then
      Err(Unauthorized)
    else
      var stake :- StakedMore(p, tokenSender, amount);
      var total :- Add128(p.totalStaked, amount);
      Ok(Outcome(p.(totalStaked := total, stakes := p.stakes[tokenSender := stake]), []))
  }

  /** A settled record once `amount` tokens start unstaking: earlier unstaking tokens that are due are
      released first, the rest join the new ones under a restarted timer. */
  function UnstakedMore(settled: Stake, now: Uint64, delay: Uint64, amount: Uint128): Result<Stake> {
    var released :- settled.Released(now, delay);
    var staked :- Sub128(released.staked, amount);
    var unstaking :- Add128(released.unstaking, amount);
    Ok(released.(staked := staked, unstaking := unstaking, beginTime := Some(now)))
  }

  function AfterUnstake(p: Pool, env: Env, amount: Uint128): Result<Outcome> {
    if env.sender !in p.stakes then
      Err(InsufficientTokens)
    else if p.stakes[env.sender].staked < amount then
      Err(InsufficientTokens)
    else
      var settled :- p.stakes[env.sender].Settled(p.multiplier);
      var stake :- UnstakedMore(settled, env.now, p.config.unstakeDelay, amount);
      var total :- Sub128(p.totalStaked, amount);
      Ok(Outcome(p.(totalStaked := total, stakes := p.stakes[env.sender := stake]), []))
  }

  function AfterWithdrawTokens(p: Pool, env: Env, amount: Uint128, to: Option<Address>): Result<Outcome> {
    if env.sender !in p.stakes then
      Err(InsufficientTokens)
    else
      var released :- p.stakes[env.sender].Released(env.now, p.config.unstakeDelay);
      if released.unstaked < amount then
        Err(InsufficientTokens)
      else
        var stake := released.(unstaked := released.unstaked - amount);
        Ok(Outcome(p.(stakes := p.stakes[env.sender := stake]), [SendTokens(Recipient(to, env), amount)]))
  }

  function AfterWithdrawDividends(p: Pool, env: Env, to: Option<Address>): Result<Outcome> {
    if env.sender !in p.stakes then
      Err(InsufficientFunds)
    else
      var settled :- p.stakes[env.sender].Settled(p.multiplier);
      if settled.dividend == 0 then
        Err(InsufficientFunds)
      else
        var net :- DeductCoinTax(env.tax, p.config.stableDenom, settled.dividend);
        Ok(Outcome(p.(stakes := p.stakes[env.sender := settled.(dividend := 0)]),
                   [SendDividend(Recipient(to, env), settled.dividend, net)]))
  }

  function Recipient(to: Option<Address>, env: Env): Address {
    match to
    case Some(a) => a
    case None => env.sender
  }

  /** The contract's entry point. An abort leaves the stored pool as it was. */
  function Apply(p: Pool, c: Call): Result<Outcome> {
    match c.action
    case Deposit => AfterDeposit(p, c.env)
    case Unstake(amount) => AfterUnstake(p, c.env, amount)
    case WithdrawTokens(amount, to) => AfterWithdrawTokens(p, c.env, amount, to)
    case WithdrawDividends(to) => AfterWithdrawDividends(p, c.env, to)
    case Receive(tokenSender, amount) => AfterReceive(p, c.env, tokenSender, amount)
  }
}

/** Runs of the pool beside an eager ledger that pays every staker at every deposit. */
module PoolRuns {
  import opened Prelude
  import opened StakeStates
  import opened Pools

  /** One accepted call to unstake. */
  datatype Unstaking = Unstaking(time: nat, amount: nat)

  /** What an outside observer writes down about one staker. `eager` is in fractions of a unit:
      at every deposit it grows by stake times dividend per staked token, with no rounding and no laziness. */
  datatype Account = Account(
    eager: nat,
    paid: nat,
    settlements: nat,
    unstakes: seq<Unstaking>,
    withdrawn: nat)

  datatype Ledger = Ledger(
    deposited: nat,
    distributions: nat,
    tokensIn: nat,
    tokensOut: nat,
    accounts: map<Address, Account>)

  datatype World = World(pool: Pool, ledger: Ledger, clock: nat)

  const FRESH_ACCOUNT := Account(0, 0, 0, [], 0)

  function GrossPaid(messages: seq<Message>): nat {
    if messages == [] then 0
    else (if messages[0].SendDividend? then messages[0].gross else 0) + GrossPaid(messages[1..])
  }

  function TokensSent(messages: seq<Message>): nat {
    if messages == [] then 0
    else (if messages[0].SendTokens? then messages[0].amount else 0) + TokensSent(messages[1..])
  }

  lemma OneMessage(m: Message)
    ensures GrossPaid([m]) == if m.SendDividend? then m.gross else 0
    ensures TokensSent([m]) == if m.SendTokens? then m.amount else 0
  {
    assert [m][1..] == [];
  }

  /** Pay every staker at once for a deposit of `perStake` fractions per staked token. */
  function CreditAll(accounts: map<Address, Account>, stakes: map<Address, Stake>, perStake: nat)
    : map<Address, Account>
  {
    map a | a in accounts ::
      if a in stakes
      then accounts[a].(eager := accounts[a].eager + stakes[a].staked * perStake)
      else accounts[a]
  }

  function Record(l: Ledger, p: Pool, c: Call, o: Outcome): Ledger {
    var who := if c.action.Receive? then c.action.tokenSender else c.env.sender;
    var acc := if who in l.accounts then l.accounts[who] else FRESH_ACCOUNT;
    match c.action
    case Deposit =>
      l.(deposited := l.deposited + c.env.funds,
         distributions := l.distributions + if p.totalStaked > 0 then 1 else 0,
         accounts := CreditAll(l.accounts, p.stakes, SaturatingSub(o.pool.multiplier, p.multiplier)))
    case Receive(_, amount) =>
      var settlements := acc.settlements + if who in p.stakes then 1 else 0;
      l.(tokensIn := l.tokensIn + amount,
         accounts := l.accounts[who := acc.(settlements := settlements)])
    case Unstake(amount) =>
      l.(accounts := l.accounts[who := acc.(settlements := acc.settlements + 1,
                                            unstakes := acc.unstakes + [Unstaking(c.env.now, amount)])])
    case WithdrawTokens(_, _) =>
      var sent := TokensSent(o.messages);
      l.(tokensOut := l.tokensOut + sent,
         accounts := l.accounts[who := acc.(withdrawn := acc.withdrawn + sent)])
    case WithdrawDividends(_) =>
      l.(accounts := l.accounts[who := acc.(settlements := acc.settlements + 1,
                                            paid := acc.paid + GrossPaid(o.messages))])
  }

  function Start(config: Config, clock: nat): World {
    World(Instantiate(config), Ledger(0, 0, 0, 0, map[]), clock)
  }

  function Next(w: World, c: Call): World {
    match Apply(w.pool, c)
    case Ok(o) => World(o.pool, Record(w.ledger, w.pool, c, o), c.env.now)
    case Err(_) => w.(clock := c.env.now)
  }

  function Run(w: World, calls: seq<Call>): World {
    if calls == [] then w else Next(Run(w, calls[..|calls| - 1]), calls[|calls| - 1])
  }

  lemma {:induction false} RunSnoc(w: World, calls: seq<Call>, n: nat)
    requires n < |calls|
    ensures Run(w, calls[..0]) == w
    ensures Run(w, calls[..n + 1]) == Next(Run(w, calls[..n]), calls[n])
  {
    assert calls[..n + 1][..n] == calls[..n];
  }

  lemma {:induction false} RunAppend(w: World, calls: seq<Call>, c: Call)
    ensures Run(w, calls + [c]) == Next(Run(w, calls), c)
  {
    assert (calls + [c])[..|calls|] == calls;
  }

  /** Block time never runs backwards. */
  predicate Timely(clock: nat, calls: seq<Call>) {
    && (forall i :: 0 <= i < |calls| ==> clock <= calls[i].env.now)
    && (forall i, j :: 0 <= i < j < |calls| ==> calls[i].env.now <= calls[j].env.now)
  }

  lemma {:induction false} RunClock(w: World, calls: seq<Call>)
    ensures Run(w, calls).clock == if calls == [] then w.clock else calls[|calls| - 1].env.now
    ensures Run(w, calls).pool.config == w.pool.config
  {
    if calls != [] {
      RunClock(w, calls[..|calls| - 1]);
    }
  }

  // ----- Unstake calls of one staker

  /** Everything asked to be unstaked at or before `t`. */
  function UnstakedBy(u: seq<Unstaking>, t: int): nat {
    if u == [] then 0
    else
      var last := u[|u| - 1];
      UnstakedBy(u[..|u| - 1], t) + if last.time <= t then last.amount else 0
  }

  function UnstakedEver(u: seq<Unstaking>): nat {
    if u == [] then 0 else UnstakedEver(u[..|u| - 1]) + u[|u| - 1].amount
  }

  lemma {:induction false} UnstakedByMonotone(u: seq<Unstaking>, t1: int, t2: int)
    requires t1 <= t2
    ensures UnstakedBy(u, t1) <= UnstakedBy(u, t2)
  {
    if u != [] {
      UnstakedByMonotone(u[..|u| - 1], t1, t2);
    }
  }

  lemma {:induction false} UnstakedByAll(u: seq<Unstaking>, t: int)
    requires forall i :: 0 <= i < |u| ==> u[i].time <= t
    ensures UnstakedBy(u, t) == UnstakedEver(u)
  {
    if u != [] {
      UnstakedByAll(u[..|u| - 1], t);
    }
  }

  lemma UnstakedAppend(u: seq<Unstaking>, x: Unstaking, t: int)
    ensures UnstakedBy(u + [x], t) == UnstakedBy(u, t) + if x.time <= t then x.amount else 0
    ensures UnstakedEver(u + [x]) == UnstakedEver(u) + x.amount
  {
    assert (u + [x])[..|u|] == u;
  }
}
