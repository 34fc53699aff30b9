/** The full effect of every call on the pool: record, totals, messages and reason of refusal. */
module PoolOutcomes {
  import opened Prelude
  import opened Terra
  import opened StakeStates
  import opened Pools
  import opened PoolInvariant
  import opened PoolTheorems

  /** A record brought up to date: everything owed becomes stored dividend. */
  function Settle(s: Stake, m: Uint128): Stake
    requires Claim(s, m) < U128
  {
    s.(dividend := Claim(s, m), multiplier := m)
  }

  lemma {:induction false} SettledIs(s: Stake, m: Uint128)
    ensures s.Settled(m) == if Claim(s, m) < U128 then Ok(Settle(s, m)) else Err(Overflow)
  {
  }

  function StillUnstaking(s: Stake, now: nat, delay: nat): Uint128 {
    if Due(s, now, delay) then 0 else s.unstaking
  }

  function FreeTokens(s: Stake, now: nat, delay: nat): nat {
    s.unstaked + if Due(s, now, delay) then s.unstaking else 0
  }

  lemma ReleasedIs(s: Stake, now: Uint64, delay: Uint64)
    ensures s.Released(now, delay)
            == if !ReleaseFits(s, now, delay) then Err(Overflow)
               else Ok(s.(unstaking := StillUnstaking(s, now, delay), unstaked := FreeTokens(s, now, delay),
                          beginTime := if Due(s, now, delay) then None else s.beginTime))
  {
  }

  /** A stake call is believed from the base token only. It adds to the stake, settles what was owed without
      changing it, and leaves tokens on their way out alone. */
  lemma {:induction false} ReceiveOutcome(p: Pool, env: Env, who: Address, amount: Uint128)
    ensures var r := Apply(p, Call(env, Receive(who, amount)));
            && (r == Err(Unauthorized) <==> env.sender != p.config.baseToken)
            && (r.Err? ==> r.error in {Unauthorized, Overflow})
            && (r.Ok? <==>
                  && env.sender == p.config.baseToken
                  && p.totalStaked + amount < U128
                  && (who in p.stakes ==>
                        Claim(p.stakes[who], p.multiplier) < U128 && p.stakes[who].staked + amount < U128))
            && (r.Ok? ==>
                  var stake := if who in p.stakes
                               then Settle(p.stakes[who], p.multiplier).(staked := p.stakes[who].staked + amount)
                               else Stake(amount, 0, None, 0, p.multiplier, 0);
                  && r.value == Outcome(p.(totalStaked := p.totalStaked + amount,
                                           stakes := p.stakes[who := stake]), [])
                  && Claim(stake, p.multiplier)
                     == if who in p.stakes then Claim(p.stakes[who], p.multiplier) else 0)
  {
    if who in p.stakes {
      SettledIs(p.stakes[who], p.multiplier);
    }
  }

  /** Unstaking moves the amount out of the stake to whatever is still unstaking, frees what is due, restarts the
      timer, and settles what was owed. */
  lemma {:induction false} UnstakeOutcome(p: Pool, env: Env, amount: Uint128)
    ensures var r, delay := Apply(p, Call(env, Unstake(amount))), p.config.unstakeDelay;
            && (r == Err(InsufficientTokens)
                <==> env.sender !in p.stakes || p.stakes[env.sender].staked < amount)
            && (r.Err? ==> r.error in {InsufficientTokens, Overflow})
            && (r.Ok? ==>
                  && env.sender in p.stakes
                  && (var s := p.stakes[env.sender];
                      && amount <= s.staked && amount <= p.totalStaked
                      && Claim(s, p.multiplier) < U128
                      && StillUnstaking(s, env.now, delay) + amount < U128
                      && FreeTokens(s, env.now, delay) < U128
                      && r.value == Outcome(
                           p.(totalStaked := p.totalStaked - amount,
                              stakes := p.stakes[env.sender := Settle(s, p.multiplier).(
                                staked := s.staked - amount,
                                unstaking := StillUnstaking(s, env.now, delay) + amount,
                                unstaked := FreeTokens(s, env.now, delay),
                                beginTime := Some(env.now))]),
                           [])))
  {
    if env.sender in p.stakes {
      var s := p.stakes[env.sender];
      SettledIs(s, p.multiplier);
      if Claim(s, p.multiplier) < U128 {
        ReleasedIs(Settle(s, p.multiplier), env.now, p.config.unstakeDelay);
      }
    }
  }

  /** A token withdrawal sends exactly the amount asked for to the addressee, out of the tokens that are free; it
      does not touch stake or dividends. */
  lemma {:induction false} WithdrawTokensOutcome(p: Pool, env: Env, amount: Uint128, to: Option<Address>)
    ensures var r, delay := Apply(p, Call(env, WithdrawTokens(amount, to))), p.config.unstakeDelay;
            && (r == Err(InsufficientTokens) <==>
                  || env.sender !in p.stakes
                  || (&& ReleaseFits(p.stakes[env.sender], env.now, delay)
                      && FreeTokens(p.stakes[env.sender], env.now, delay) < amount))
            && (r.Err? ==> r.error in {InsufficientTokens, Overflow})
            && (r.Ok? ==>
                  && env.sender in p.stakes
                  && (var s := p.stakes[env.sender];
                      && amount <= FreeTokens(s, env.now, delay) < U128
                      && r.value == Outcome(
                           p.(stakes := p.stakes[env.sender := s.(
                                unstaking := StillUnstaking(s, env.now, delay),
                                unstaked := FreeTokens(s, env.now, delay) - amount,
                                beginTime := if Due(s, env.now, delay) then None else s.beginTime)]),
                           [SendTokens(if to.Some? then to.value else env.sender, amount)])))
  {
    if env.sender in p.stakes {
      ReleasedIs(p.stakes[env.sender], env.now, p.config.unstakeDelay);
    }
  }

  /** A dividend withdrawal is refused for want of funds exactly when nothing is owed. */
  lemma {:induction false} WithdrawDividendsRefused(p: Pool, env: Env, to: Option<Address>)
    ensures var r := Apply(p, Call(env, WithdrawDividends(to)));
            && (r == Err(InsufficientFunds)
                <==> env.sender !in p.stakes || Claim(p.stakes[env.sender], p.multiplier) == 0)
            && (r.Err? ==> r.error in {InsufficientFunds, Overflow})
  {
    if env.sender in p.stakes {
      SettledIs(p.stakes[env.sender], p.multiplier);
      if Claim(p.stakes[env.sender], p.multiplier) < U128 {
        DeductCoinTaxIs(env.tax, p.config.stableDenom, Claim(p.stakes[env.sender], p.multiplier));
      }
    }
  }
}
