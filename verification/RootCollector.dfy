/** The root collector contract: its stored fields and the calls that reassign them. */
module RootCollectors {
  import opened Prelude
  import opened Terra
  import opened StakeStates
  import opened Pools
  import opened PoolRuns
  import opened PoolInvariant

  class RootCollector {
    const config: Config
    var multiplier: Uint128
    var totalStaked: Uint128
    var residual: Uint128
    var stakes: map<Address, Stake>

    /** The observer's book and clock. */
    ghost var ledger: Ledger
    ghost var clock: nat

    function View(): Pool
      reads this
    {
      Pool(config, multiplier, totalStaked, residual, stakes)
    }

    ghost function Observed(): World
      reads this
    {
      World(View(), ledger, clock)
    }

    ghost predicate Valid()
      reads this
    {
      Inv(Observed())
    }

    /** What a call that computes `spec` from `before` must leave behind. */
    ghost predicate Commits(spec: Result<Outcome>, before: Pool, r: Result<seq<Message>>)
      reads this
    {
      match spec
      case Ok(o) => r == Ok(o.messages) && View() == o.pool
      case Err(e) => r == Err(e) && View() == before
    }

    constructor (config: Config, ghost now: nat)
      ensures this.config == config
      ensures Observed() == Start(config, now)
      ensures Valid()
    {
      this.config := config;
      multiplier, totalStaked, residual, stakes := 0, 0, 0, map[];
      ledger := Ledger(0, 0, 0, 0, map[]);
      clock := now;
      new;
      RunKeepsInv(config, now, []);
    }

    method Deposit(env: Env) returns (r: Result<seq<Message>>)
      modifies this`multiplier, this`residual
      ensures Commits(AfterDeposit(old(View()), env), old(View()), r)
    {
      var deposit :- Add128(env.funds, residual);
      var depositPerStake, newResidual := 0, deposit;
      if totalStaked != 0 {
        depositPerStake :- MultiplyRatio(deposit, FRACTION, totalStaked);
        var spent :- MultiplyRatio(totalStaked, depositPerStake, FRACTION);
        newResidual :- Sub128(deposit, spent);
      }
      multiplier :- Add128(multiplier, depositPerStake);
      residual := newResidual;
      return Ok([]);
    }

    method UnstakeTokens(env: Env, amount: Uint128) returns (r: Result<seq<Message>>)
      modifies this`stakes, this`totalStaked
      ensures Commits(AfterUnstake(old(View()), env, amount), old(View()), r)
    {
      if env.sender !in stakes {
        return Err(InsufficientTokens);
      }
      var stake := new StakeState.Load(stakes[env.sender]);
      if stake.staked < amount {
        return Err(InsufficientTokens);
      }
      var _ :- stake.UpdateDividend(multiplier);
      var _ :- stake.UpdateUnstakedAmount(env.now, config.unstakeDelay);
      stake.staked :- Sub128(stake.staked, amount);
      stake.unstaking :- Add128(stake.unstaking, amount);
      stake.beginTime := Some(env.now);
      // The storage write waits for the last check: an abort rolls it back.
      totalStaked :- Sub128(totalStaked, amount);
      stakes := stakes[env.sender := stake.Value()];
      return Ok([]);
    }

    method WithdrawTokens(env: Env, amount: Uint128, to: Option<Address>) returns (r: Result<seq<Message>>)
      modifies this`stakes
      ensures Commits(AfterWithdrawTokens(old(View()), env, amount, to), old(View()), r)
    {
      if env.sender !in stakes {
        return Err(InsufficientTokens);
      }
      var stake := new StakeState.Load(stakes[env.sender]);
      var _ :- stake.UpdateUnstakedAmount(env.now, config.unstakeDelay);
      if stake.unstaked < amount {
        return Err(InsufficientTokens);
      }
      stake.unstaked := stake.unstaked - amount;
      stakes := stakes[env.sender := stake.Value()];
      return Ok([SendTokens(Recipient(to, env), amount)]);
    }

    method WithdrawDividends(env: Env, to: Option<Address>) returns (r: Result<seq<Message>>)
      modifies this`stakes
      ensures Commits(AfterWithdrawDividends(old(View()), env, to), old(View()), r)
    {
      if env.sender !in stakes {
        return Err(InsufficientFunds);
      }
      var stake := new StakeState.Load(stakes[env.sender]);
      var _ :- stake.UpdateDividend(multiplier);
      if stake.dividend == 0 {
        return Err(InsufficientFunds);
      }
      var net :- DeductCoinTax(env.tax, config.stableDenom, stake.dividend);
      var messages := [SendDividend(Recipient(to, env), stake.dividend, net)];
      stake.dividend := 0;
      stakes := stakes[env.sender := stake.Value()];
      return Ok(messages);
    }

    method ReceiveStake(env: Env, tokenSender: Address, amount: Uint128) returns (r: Result<seq<Message>>)
      modifies this`stakes, this`totalStaked
      ensures Commits(AfterReceive(old(View()), env, tokenSender, amount), old(View()), r)
    {
      if env.sender != config.baseToken {
        return Err(Unauthorized);
      }
      var stake: StakeState;
      if tokenSender in stakes {
        stake := new StakeState.Load(stakes[tokenSender]);
        var _ :- stake.UpdateDividend(multiplier);
        stake.staked :- Add128(stake.staked, amount);
      } else {
        stake := new StakeState.Load(Stake(amount, 0, None, 0, multiplier, 0));
      }
      totalStaked :- Add128(totalStaked, amount);
      stakes := stakes[tokenSender := stake.Value()];
      return Ok([]);
    }

    /** The entry point. Whatever is called, the contract moves as the transition system says,
        the observer books the call, and the invariant is kept. */
    method Execute(c: Call) returns (r: Result<seq<Message>>)
      requires Valid()
      requires clock <= c.env.now
      modifies this
      ensures Valid()
      ensures Observed() == Next(old(Observed()), c)
      ensures Commits(Apply(old(View()), c), old(View()), r)
    {
      ghost var before := Observed();
      match c.action {
        case Deposit => r := Deposit(c.env);
        case Unstake(amount) => r := UnstakeTokens(c.env, amount);
        case WithdrawTokens(amount, to) => r := WithdrawTokens(c.env, amount, to);
        case WithdrawDividends(to) => r := WithdrawDividends(c.env, to);
        case Receive(tokenSender, amount) => r := ReceiveStake(c.env, tokenSender, amount);
      }
      ledger := Next(before, c).ledger;
      clock := c.env.now;
      assert Observed() == Next(before, c);
      NextKeepsInv(before, c);
    }
  }
}
