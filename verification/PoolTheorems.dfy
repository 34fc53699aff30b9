/** What holds after any run of the pool. */
module PoolTheorems {
  import opened Prelude
  import opened MapSum
  import opened Terra
  import opened StakeStates
  import opened Pools
  import opened PoolRuns
  import opened PoolInvariant

  // ----- Claims

  /** Stored plus accrued dividend, as a number. */
  function Claim(s: Stake, m: nat): nat {
    s.dividend + FloorDiv(Times(s.staked, SaturatingSub(m, s.multiplier)), FRACTION)
  }

  function Claims(p: Pool): map<Address, nat> {
    map a | a in p.stakes :: Claim(p.stakes[a], p.multiplier)
  }

  function Paid(l: Ledger): map<Address, nat> {
    map a | a in l.accounts :: l.accounts[a].paid
  }

  function Settlements(l: Ledger): map<Address, nat> {
    map a | a in l.accounts :: l.accounts[a].settlements
  }

  /** Everything one staker has had or could have now. */
  function Received(p: Pool, l: Ledger): map<Address, nat> {
    map a | a in p.stakes && a in l.accounts :: Claim(p.stakes[a], p.multiplier) + l.accounts[a].paid
  }

  lemma ClaimIsFullDividend(s: Stake, m: Uint128)
    ensures s.FullDividend(m).Ok? ==> s.FullDividend(m).value == Claim(s, m)
    ensures s.FullDividend(m).Ok? <==> Claim(s, m) < U128
  {
  }

  lemma {:induction false} ClaimTracks(s: Stake, acc: Account, m: nat)
    requires Tracks(s, acc, m)
    ensures var received := Claim(s, m) + acc.paid;
            received * FRACTION <= acc.eager
            <= received * FRACTION + (acc.settlements + 1) * (FRACTION - 1)
  {
    DivBounds(Times(s.staked, m - s.multiplier), FRACTION);
  }

  /** The lazy pool refines the eager one: whatever the run, every staker has been paid or can claim at most
      the eager credit, and is short of it by less than one unit per settlement plus one for the open position.
      The record's multiplier never passes the global one, so its subtraction never saturates. */
  lemma {:induction false} LazyRefinesEager(config: Config, clock: nat, calls: seq<Call>, a: Address)
    requires Timely(clock, calls)
    requires var w := Run(Start(config, clock), calls); a in w.pool.stakes
    ensures var w := Run(Start(config, clock), calls);
            && a in w.ledger.accounts
            && w.pool.stakes[a].multiplier <= w.pool.multiplier
            && var acc := w.ledger.accounts[a];
               var received := Claim(w.pool.stakes[a], w.pool.multiplier) + acc.paid;
               received * FRACTION <= acc.eager < (received + acc.settlements + 1) * FRACTION
  {
    RunKeepsInv(config, clock, calls);
    var w := Run(Start(config, clock), calls);
    ClaimTracks(w.pool.stakes[a], w.ledger.accounts[a], w.pool.multiplier);
  }

  // ----- Solvency

  function Roundings(l: Ledger): map<Address, nat> {
    map a | a in l.accounts :: l.accounts[a].settlements + 1
  }

  lemma {:induction false} RoundingTotal(l: Ledger)
    ensures Sum(Roundings(l)) == Sum(Settlements(l)) + |l.accounts.Keys|
  {
    var ones: map<Address, nat> := map a | a in l.accounts :: 1;
    SumAdd(Roundings(l), Settlements(l), ones);
    SumOnes(ones);
    assert ones.Keys == l.accounts.Keys;
  }

  lemma {:induction false} ReceivedOne(w: World, a: Address)
    requires Inv(w)
    requires a in w.pool.stakes
    ensures var received, eager := Received(w.pool, w.ledger), EagerCredits(w.ledger.accounts);
            received[a] * FRACTION <= eager[a] <= received[a] * FRACTION + Roundings(w.ledger)[a] * (FRACTION - 1)
  {
    ClaimTracks(w.pool.stakes[a], w.ledger.accounts[a], w.pool.multiplier);
  }

  lemma {:induction false} ReceivedSum(w: World)
    requires w.ledger.accounts.Keys == w.pool.stakes.Keys
    ensures Sum(Received(w.pool, w.ledger)) == Sum(Claims(w.pool)) + Sum(Paid(w.ledger))
  {
    SumAdd(Received(w.pool, w.ledger), Claims(w.pool), Paid(w.ledger));
  }

  lemma {:induction false} ReceivedBounds(w: World)
    requires Inv(w)
    ensures Sum(Received(w.pool, w.ledger)) * FRACTION <= Sum(EagerCredits(w.ledger.accounts))
    ensures Sum(EagerCredits(w.ledger.accounts))
            <= Sum(Received(w.pool, w.ledger)) * FRACTION + Sum(Roundings(w.ledger)) * (FRACTION - 1)
  {
    var received, eager := Received(w.pool, w.ledger), EagerCredits(w.ledger.accounts);
    forall a | a in eager
      ensures received[a] * FRACTION <= eager[a] <= received[a] * FRACTION + Roundings(w.ledger)[a] * (FRACTION - 1)
    {
      ReceivedOne(w, a);
    }
    SumAtLeast(eager, received, FRACTION);
    SumAtMost(eager, received, FRACTION, Roundings(w.ledger), FRACTION - 1);
  }

  lemma {:induction false} ReceivedTotals(w: World)
    requires Inv(w)
    ensures var received := Sum(Claims(w.pool)) + Sum(Paid(w.ledger));
            && received * FRACTION <= Sum(EagerCredits(w.ledger.accounts))
            && Sum(EagerCredits(w.ledger.accounts))
               <= received * FRACTION + (Sum(Settlements(w.ledger)) + |w.pool.stakes.Keys|) * (FRACTION - 1)
  {
    ReceivedSum(w);
    ReceivedBounds(w);
    RoundingTotal(w.ledger);
  }

  lemma {:induction false} SumOnes(m: map<Address, nat>)
    requires forall k | k in m :: m[k] == 1
    ensures Sum(m) == |m.Keys|
    decreases m.Keys
  {
    if m.Keys != {} {
      var k :| k in m;
      SumExtract(m, k);
      SumOnes(m - {k});
      assert (m - {k}).Keys == m.Keys - {k};
    }
  }

  /** What the pool has paid, owes and carries. */
  ghost function Committed(w: World): nat {
    Sum(Claims(w.pool)) + Sum(Paid(w.ledger)) + w.pool.residual
  }

  lemma {:induction false} CommittedBounds(w: World)
    requires Inv(w)
    ensures Committed(w) <= w.ledger.deposited + SaturatingSub(w.ledger.distributions, 1)
    ensures w.ledger.deposited <= Committed(w) + Sum(Settlements(w.ledger)) + |w.pool.stakes.Keys|
  {
    ReceivedTotals(w);
  }

  /** Commitment bound over every run: what the pool has paid, owes and carries never passes what was
      deposited by more than one unit per distribution after the first, and never falls below it by as much
      as one unit per settlement and per staker. */
  lemma {:induction false} CommitmentBound(config: Config, clock: nat, calls: seq<Call>)
    requires Timely(clock, calls)
    ensures var w := Run(Start(config, clock), calls);
            && Committed(w) <= w.ledger.deposited + SaturatingSub(w.ledger.distributions, 1)
            && w.ledger.deposited <= Committed(w) + Sum(Settlements(w.ledger)) + |w.pool.stakes.Keys|
  {
    RunKeepsInv(config, clock, calls);
    CommittedBounds(Run(Start(config, clock), calls));
  }

  // ----- Settling never gets stuck

  /** As long as the deposits so far, and one unit per distribution, fit in 128 bits, no settlement overflows:
      no staker can be locked out of unstaking or withdrawing by the size of a dividend. */
  lemma {:induction false} SettlementNeverOverflows(config: Config, clock: nat, calls: seq<Call>, a: Address)
    requires Timely(clock, calls)
    requires var w := Run(Start(config, clock), calls);
             a in w.pool.stakes && w.ledger.deposited + w.ledger.distributions < U128
    ensures var p := Run(Start(config, clock), calls).pool;
            p.stakes[a].Settled(p.multiplier).Ok?
  {
    CommitmentBound(config, clock, calls);
    var p := Run(Start(config, clock), calls).pool;
    SumMember(Claims(p), a);
    ClaimIsFullDividend(p.stakes[a], p.multiplier);
  }

  /** A dividend withdrawal is accepted exactly when something is owed that fits in 128 bits and the tax can be
      worked out. It sends all of it less exactly the deducted tax: coin and tax together stay within what was owed,
      at rates up to one within two units of it. Nothing is owed afterwards. After any run within the size above the
      claim always fits. */
  lemma {:induction false} WithdrawDividendsAcceptedIff(p: Pool, env: Env, to: Option<Address>)
    ensures var r := Apply(p, Call(env, WithdrawDividends(to)));
            && (r.Ok? <==>
                  && env.sender in p.stakes
                  && 0 < Claim(p.stakes[env.sender], p.multiplier) < U128
                  && TaxFits(env.tax, p.config.stableDenom))
            && (r.Ok? ==>
                  && |r.value.messages| == 1
                  && r.value.messages[0].SendDividend?
                  && r.value.messages[0].to == (if to.Some? then to.value else env.sender)
                  && r.value.messages[0].gross == Claim(p.stakes[env.sender], p.multiplier)
                  && (var gross, net := r.value.messages[0].gross, r.value.messages[0].net;
                      && net == NetAmount(env.tax, p.config.stableDenom, gross)
                      && net + ChainTax(env.tax, p.config.stableDenom, net) <= gross
                      && (env.tax.rate <= FRACTION ==>
                            gross <= net + ChainTax(env.tax, p.config.stableDenom, net) + 2))
                  && r.value.pool == p.(stakes := p.stakes[env.sender := p.stakes[env.sender].(
                       dividend := 0, multiplier := p.multiplier)])
                  && Claim(r.value.pool.stakes[env.sender], p.multiplier) == 0)
  {
    if env.sender in p.stakes && Claim(p.stakes[env.sender], p.multiplier) < U128 {
      ClaimIsFullDividend(p.stakes[env.sender], p.multiplier);
      var gross := p.stakes[env.sender].Settled(p.multiplier).value.dividend;
      DeductCoinTaxIs(env.tax, p.config.stableDenom, gross);
      if TaxFits(env.tax, p.config.stableDenom) {
        DeductCoinTaxPays(env.tax, p.config.stableDenom, gross);
      }
    } else if env.sender in p.stakes {
      ClaimIsFullDividend(p.stakes[env.sender], p.multiplier);
    }
  }

  // ----- Tokens

  /** In every reachable state the total stake is the sum of the stakes, the tokens held for stakers are
      the tokens received less those sent, and a staker with no running timer has nothing unstaking. */
  lemma {:induction false} TokensConserved(config: Config, clock: nat, calls: seq<Call>)
    requires Timely(clock, calls)
    ensures var w := Run(Start(config, clock), calls);
            && w.pool.totalStaked == Sum(StakedAmounts(w.pool.stakes))
            && Sum(TokenAmounts(w.pool.stakes)) == w.ledger.tokensIn - w.ledger.tokensOut
            && forall a | a in w.pool.stakes ::
                 w.pool.stakes[a].beginTime.None? ==> w.pool.stakes[a].unstaking == 0
  {
    RunKeepsInv(config, clock, calls);
  }

  /** Releasing a due amount stays within 64 bits of time and 128 bits of tokens. */
  predicate ReleaseFits(s: Stake, now: nat, delay: nat) {
    s.beginTime.Some? ==>
      && s.beginTime.value + delay < U64
      && (s.beginTime.value + delay <= now ==> s.unstaked + s.unstaking < U128)
  }

  lemma ReleasedDefined(s: Stake, now: Uint64, delay: Uint64)
    ensures s.Released(now, delay).Ok? <==> ReleaseFits(s, now, delay)
  {
  }

  /** While the tokens ever received fit in 128 bits, every amount in every record does. */
  lemma {:induction false} TokensNeverOverflow(config: Config, clock: nat, calls: seq<Call>, a: Address)
    requires Timely(clock, calls)
    requires var w := Run(Start(config, clock), calls); a in w.pool.stakes && w.ledger.tokensIn < U128
    ensures Tokens(Run(Start(config, clock), calls).pool.stakes[a]) < U128
  {
    RunKeepsInv(config, clock, calls);
    SumMember(TokenAmounts(Run(Start(config, clock), calls).pool.stakes), a);
  }

  /** Unstaking is accepted exactly up to the staked amount, overflows aside: of the claim, of a due release,
      or of an amount that joins others still unstaking. The pool's own total never gets in the way. */
  lemma {:induction false} UnstakeAcceptedIff(config: Config, clock: nat, calls: seq<Call>, env: Env, amount: Uint128)
    requires Timely(clock, calls)
    ensures var p := Run(Start(config, clock), calls).pool;
            Apply(p, Call(env, Unstake(amount))).Ok? <==>
            && env.sender in p.stakes
            && (var s := p.stakes[env.sender];
                && amount <= s.staked
                && Claim(s, p.multiplier) < U128
                && ReleaseFits(s, env.now, config.unstakeDelay)
                && (!Due(s, env.now, config.unstakeDelay) ==> s.unstaking + amount < U128))
  {
    RunKeepsInv(config, clock, calls);
    RunClock(Start(config, clock), calls);
    var p := Run(Start(config, clock), calls).pool;
    if env.sender in p.stakes {
      var s := p.stakes[env.sender];
      SumMember(StakedAmounts(p.stakes), env.sender);
      ClaimIsFullDividend(s, p.multiplier);
      if amount <= s.staked && s.Settled(p.multiplier).Ok? {
        UnstakeFitsIff(s.Settled(p.multiplier).value, env.now, config.unstakeDelay, amount);
      }
    }
  }

  predicate Due(s: Stake, now: nat, delay: nat) {
    s.beginTime.Some? && s.beginTime.value + delay <= now
  }

  lemma {:induction false} UnstakeFitsIff(s: Stake, now: Uint64, delay: Uint64, amount: Uint128)
    requires amount <= s.staked
    ensures UnstakedMore(s, now, delay, amount).Ok?
            <==> ReleaseFits(s, now, delay) && (!Due(s, now, delay) ==> s.unstaking + amount < U128)
  {
    ReleasedDefined(s, now, delay);
  }

  /** Each record is its owner's: a call changes the record of its sender, or of the staker for whom the base
      token contract reports tokens, and no other; and it never lowers anybody else's claim. */
  lemma {:induction false} OthersUntouched(p: Pool, c: Call, a: Address)
    requires Apply(p, c).Ok?
    requires a != if c.action.Receive? then c.action.tokenSender else c.env.sender
    ensures c.action.Receive? ==> c.env.sender == p.config.baseToken
    ensures var q := Apply(p, c).value.pool;
            && (a in q.stakes <==> a in p.stakes)
            && (a in p.stakes ==>
                  q.stakes[a] == p.stakes[a]
                  && Claim(q.stakes[a], q.multiplier) >= Claim(p.stakes[a], p.multiplier))
  {
    var q := Apply(p, c).value.pool;
    if a in p.stakes {
      if c.action.Deposit? {
        DepositFacts(p, c.env);
        ClaimMonotone(p.stakes[a], p.multiplier, q.multiplier);
      } else {
        assert q.multiplier == p.multiplier;
      }
    }
  }

  lemma {:induction false} ClaimMonotone(s: Stake, m1: nat, m2: nat)
    requires m1 <= m2
    ensures Claim(s, m1) <= Claim(s, m2)
  {
    var d1, d2 := SaturatingSub(m1, s.multiplier), SaturatingSub(m2, s.multiplier);
    MulLe(d1, d2, s.staked);
    assert Times(s.staked, d1) <= Times(s.staked, d2);
  }

  /** Unstake-delay safety: what a staker has withdrawn and could withdraw at any later time is at most what
      they asked to unstake at least one delay before that time, however often the shared timer restarted. */
  lemma {:induction false} UnstakeDelaySafety(config: Config, clock: nat, calls: seq<Call>, a: Address, now: Uint64)
    requires Timely(clock, calls)
    requires var w := Run(Start(config, clock), calls);
             a in w.pool.stakes && w.clock <= now && w.pool.stakes[a].Released(now, config.unstakeDelay).Ok?
    ensures var w := Run(Start(config, clock), calls);
            && a in w.ledger.accounts
            && (var acc := w.ledger.accounts[a];
                acc.withdrawn + w.pool.stakes[a].Released(now, config.unstakeDelay).value.unstaked
                <= UnstakedBy(acc.unstakes, now - config.unstakeDelay))
  {
    RunKeepsInv(config, clock, calls);
    RunClock(Start(config, clock), calls);
    var w := Run(Start(config, clock), calls);
    QueuedLater(w.pool.stakes[a], w.ledger.accounts[a], w.clock, now, config.unstakeDelay);
    QueuedReleased(w.pool.stakes[a], w.ledger.accounts[a], now, config.unstakeDelay);
  }

  /** The tokens a staker can take out at `now`: everything ever unstaked once the running timer, if any, is over. */
  function Available(s: Stake, acc: Account, now: nat, delay: nat): int {
    if s.beginTime.Some? && now < s.beginTime.value + delay
    then s.unstaked
    else UnstakedEver(acc.unstakes) - acc.withdrawn
  }

  /** A token withdrawal is accepted exactly up to the available amount, provided a due release does not overflow. */
  lemma {:induction false} WithdrawTokensAcceptedIff(config: Config, clock: nat, calls: seq<Call>, env: Env,
                                                     amount: Uint128, to: Option<Address>)
    requires Timely(clock, calls)
    ensures var w := Run(Start(config, clock), calls);
            var r := Apply(w.pool, Call(env, WithdrawTokens(amount, to)));
            && w.ledger.accounts.Keys == w.pool.stakes.Keys
            && (r.Ok? <==>
                  && env.sender in w.pool.stakes
                  && (var s := w.pool.stakes[env.sender];
                      && ReleaseFits(s, env.now, config.unstakeDelay)
                      && amount <= Available(s, w.ledger.accounts[env.sender], env.now, config.unstakeDelay)))
            && (r.Ok? ==>
                  r.value.messages == [SendTokens(if to.Some? then to.value else env.sender, amount)])
  {
    RunKeepsInv(config, clock, calls);
    RunClock(Start(config, clock), calls);
    var w := Run(Start(config, clock), calls);
    if env.sender in w.pool.stakes {
      WithdrawableIs(w, env);
    }
  }

  lemma {:induction false} WithdrawableIs(w: World, env: Env)
    requires AllSound(w) && env.sender in w.pool.stakes
    ensures var s, delay := w.pool.stakes[env.sender], w.pool.config.unstakeDelay;
            && (s.Released(env.now, delay).Ok? <==> ReleaseFits(s, env.now, delay))
            && (s.Released(env.now, delay).Ok? ==>
                  s.Released(env.now, delay).value.unstaked
                  == Available(s, w.ledger.accounts[env.sender], env.now, delay))
  {
    var s, delay := w.pool.stakes[env.sender], w.pool.config.unstakeDelay;
    ReleasedDefined(s, env.now, delay);
    assert Queued(s, w.ledger.accounts[env.sender], w.clock, delay);
  }

  /** In every reachable state the query's split and the stored one differ only at the instant at which
      a running delay ends. */
  lemma {:induction false} ProjectionOnReachableStates(config: Config, clock: nat, calls: seq<Call>, a: Address,
                                                       now: Uint64)
    requires Timely(clock, calls)
    requires var p := Run(Start(config, clock), calls).pool;
             a in p.stakes && p.stakes[a].Released(now, config.unstakeDelay).Ok?
    ensures var s := Run(Start(config, clock), calls).pool.stakes[a];
            var stored := s.Released(now, config.unstakeDelay).value;
            && s.UnstakingUnstaked(now, config.unstakeDelay).Ok?
            && var (unstaking, unstaked) := s.UnstakingUnstaked(now, config.unstakeDelay).value;
               && ((unstaking, unstaked) == (stored.unstaking, stored.unstaked)
                   <==> !(s.beginTime.Some? && now == s.beginTime.value + config.unstakeDelay && s.unstaking > 0))
               && unstaking + unstaked == stored.unstaking + stored.unstaked
  {
    RunKeepsInv(config, clock, calls);
    ProjectionAgreesWithUpdate(Run(Start(config, clock), calls).pool.stakes[a], now, config.unstakeDelay);
  }
}
