/** What every reachable state of the pool keeps, and the step-by-step proof. */
module PoolInvariant {
  import opened Prelude
  import opened MapSum
  import opened StakeStates
  import opened Pools
  import opened PoolRuns

  // ----- Totals over all stakers

  function StakedAmounts(stakes: map<Address, Stake>): map<Address, nat> {
    map a | a in stakes :: stakes[a].staked
  }

  /** All tokens the contract holds for one staker. */
  function Tokens(s: Stake): nat {
    s.staked + s.unstaking + s.unstaked
  }

  function TokenAmounts(stakes: map<Address, Stake>): map<Address, nat> {
    map a | a in stakes :: Tokens(stakes[a])
  }

  function EagerCredits(accounts: map<Address, Account>): map<Address, nat> {
    map a | a in accounts :: accounts[a].eager
  }

  // ----- The invariant

  /** Stored plus accrued dividend of one staker in fractions of a unit, before the last floor. */
  function Owed(s: Stake, acc: Account, m: nat): nat
    requires s.multiplier <= m
  {
    (acc.paid + s.dividend) * FRACTION + Times(s.staked, m - s.multiplier)
  }

  /** The lazy record trails the eager credit by less than one unit per settlement. */
  predicate Tracks(s: Stake, acc: Account, m: nat) {
    && s.multiplier <= m
    && Owed(s, acc, m) <= acc.eager <= Owed(s, acc, m) + (FRACTION - 1) * acc.settlements
  }

  /** The timer never lets tokens out before their own delay has passed. */
  predicate Queued(s: Stake, acc: Account, clock: nat, delay: nat) {
    && (s.beginTime.None? ==> s.unstaking == 0)
    && acc.withdrawn + s.unstaked + s.unstaking == UnstakedEver(acc.unstakes)
    && acc.withdrawn + s.unstaked <= UnstakedBy(acc.unstakes, clock - delay)
    && (forall i :: 0 <= i < |acc.unstakes| ==> acc.unstakes[i].time <= clock)
    && (s.beginTime.Some? ==>
          s.beginTime.value <= clock
          && forall i :: 0 <= i < |acc.unstakes| ==> acc.unstakes[i].time <= s.beginTime.value)
  }

  predicate Sound(s: Stake, acc: Account, m: nat, clock: nat, delay: nat) {
    Tracks(s, acc, m) && Queued(s, acc, clock, delay)
  }

  ghost predicate Balanced(p: Pool, l: Ledger) {
    && p.totalStaked == Sum(StakedAmounts(p.stakes))
    && Sum(TokenAmounts(p.stakes)) + l.tokensOut == l.tokensIn
    && p.residual <= l.deposited
    && (l.deposited - p.residual) * FRACTION <= Sum(EagerCredits(l.accounts))
    && Sum(EagerCredits(l.accounts))
       <= (l.deposited - p.residual) * FRACTION + (FRACTION - 1) * l.distributions
  }

  predicate AllSound(w: World) {
    && w.ledger.accounts.Keys == w.pool.stakes.Keys
    && forall a | a in w.pool.stakes ::
         Sound(w.pool.stakes[a], w.ledger.accounts[a], w.pool.multiplier, w.clock, w.pool.config.unstakeDelay)
  }

  ghost predicate Inv(w: World) {
    Balanced(w.pool, w.ledger) && AllSound(w)
  }

  // ----- One deposit

  /** Splitting a deposit over the stake: the part taken out of the deposit is the credited amount rounded
      down, so the remainder is never negative and stays below one unit per whole unit of stake. */
  lemma {:induction false} DepositSplit(deposit: nat, total: nat)
    requires total > 0
    ensures var perStake := deposit * FRACTION / total;
            var spent := total * perStake / FRACTION;
            && spent <= deposit
            && spent * FRACTION <= total * perStake <= spent * FRACTION + FRACTION - 1
            && deposit - spent <= CeilDiv(total - 1, FRACTION)
  {
    var perStake := deposit * FRACTION / total;
    DivBounds(deposit * FRACTION, total);
    var scaled := perStake * total;
    DivBounds(scaled, FRACTION);
    CeilBounds(total - 1, FRACTION);
  }

  /** The fraction of a unit in the credit that a deposit of `deposit` over `total` tokens hands out, worked out
      from what is known before the call: the credit falls short of the deposit by the remainder of the division. */
  function CreditFraction(deposit: nat, total: nat): nat
    requires total > 0
  {
    (FRACTION - Mod(deposit * FRACTION, total) % FRACTION) % FRACTION
  }

  lemma {:induction false} CreditFractionOf(deposit: nat, total: nat)
    requires total > 0
    ensures Times(total, FloorDiv(deposit * FRACTION, total)) % FRACTION == CreditFraction(deposit, total)
    ensures CreditFraction(deposit, total) == 0 <==> Mod(deposit * FRACTION, total) % FRACTION == 0
  {
    var credited, rest := Times(total, FloorDiv(deposit * FRACTION, total)), Mod(deposit * FRACTION, total);
    assert credited == deposit * FRACTION - rest;
    FractionOfDifference(credited, deposit, rest);
  }

  lemma {:induction false} FractionOfDifference(x: nat, units: nat, rest: nat)
    requires x + rest == units * FRACTION
    ensures x % FRACTION == (FRACTION - rest % FRACTION) % FRACTION
  {
    var q, r := rest / FRACTION, rest % FRACTION;
    assert x == (units - q) * FRACTION - r;
  }

  /** A deposit conserves value exactly when the division of the incoming amount by the stake leaves whole units
      over; otherwise the fraction cut off the credited amount is credited to the stakers and kept in the residual
      as well. */
  lemma {:induction false} DepositConservesIff(p: Pool, env: Env)
    requires AfterDeposit(p, env).Ok?
    requires p.totalStaked > 0
    ensures var q := AfterDeposit(p, env).value.pool;
            var deposit := env.funds + p.residual;
            var credited := Times(p.totalStaked, SaturatingSub(q.multiplier, p.multiplier));
            && credited + q.residual * FRACTION == deposit * FRACTION + CreditFraction(deposit, p.totalStaked)
            && (credited + q.residual * FRACTION == deposit * FRACTION
                <==> Mod(deposit * FRACTION, p.totalStaked) % FRACTION == 0)
  {
    var deposit := env.funds + p.residual;
    DepositSplit(deposit, p.totalStaked);
    CreditFractionOf(deposit, p.totalStaked);
    var perStake := FloorDiv(deposit * FRACTION, p.totalStaked);
    assert AfterDeposit(p, env).value.pool.multiplier == p.multiplier + perStake;
    WholePart(Times(p.totalStaked, perStake));
  }

  lemma WholePart(x: nat)
    ensures x == x / FRACTION * FRACTION + x % FRACTION
  {
  }

  /** What a deposit does to any pool. The subtraction of the distributed part never fails: it aborts only on an
      overflow of the inflow or, if anything is staked, of the multiplier. With nothing staked the whole inflow is
      carried as residual; otherwise the multiplier rises by the inflow over the stake, and what is left behind is
      at most one unit for any stake up to a whole FRACTION. */
  lemma {:induction false} DepositResidual(p: Pool, env: Env)
    ensures var deposit := env.funds + p.residual;
            AfterDeposit(p, env).Ok? <==>
            && deposit < U128
            && (p.totalStaked > 0 ==> p.multiplier + FloorDiv(deposit * FRACTION, p.totalStaked) < U128)
    ensures AfterDeposit(p, env).Err? ==> AfterDeposit(p, env).error == Overflow
    ensures AfterDeposit(p, env).Ok? ==>
              var o, deposit := AfterDeposit(p, env).value, env.funds + p.residual;
              && o.messages == []
              && (p.totalStaked == 0 ==> o.pool == p.(residual := deposit))
              && (p.totalStaked > 0 ==>
                    var perStake := FloorDiv(deposit * FRACTION, p.totalStaked);
                    var spent := FloorDiv(Times(p.totalStaked, perStake), FRACTION);
                    && spent <= deposit
                    && o.pool == p.(multiplier := p.multiplier + perStake, residual := deposit - spent)
                    && deposit - spent <= CeilDiv(p.totalStaked - 1, FRACTION)
                    && (p.totalStaked <= FRACTION ==> deposit - spent <= 1))
  {
    if p.totalStaked > 0 {
      DepositStaked(p, env);
    }
  }

  lemma {:induction false} DepositStaked(p: Pool, env: Env)
    requires p.totalStaked > 0
    ensures var deposit := env.funds + p.residual;
            var perStake := FloorDiv(deposit * FRACTION, p.totalStaked);
            var spent := FloorDiv(Times(p.totalStaked, perStake), FRACTION);
            && spent <= deposit
            && deposit - spent <= CeilDiv(p.totalStaked - 1, FRACTION)
            && AfterDeposit(p, env)
               == if deposit < U128 && p.multiplier + perStake < U128
                  then Ok(Outcome(p.(multiplier := p.multiplier + perStake, residual := deposit - spent), []))
                  else Err(Overflow)
  {
    var deposit := env.funds + p.residual;
    DepositSplit(deposit, p.totalStaked);
    if deposit < U128 {
      var perStake := FloorDiv(deposit * FRACTION, p.totalStaked);
      if perStake < U128 {
        assert MultiplyRatio(deposit, FRACTION, p.totalStaked) == Ok(perStake);
        assert MultiplyRatio(p.totalStaked, perStake, FRACTION)
            == Ok(FloorDiv(Times(p.totalStaked, perStake), FRACTION));
      }
    }
  }

  // ----- One staker's record under each update

  lemma {:induction false} TracksSettled(s: Stake, acc: Account, m: Uint128)
    requires Tracks(s, acc, m)
    requires s.Settled(m).Ok?
    ensures var d := s.Settled(m).value.dividend;
            (acc.paid + d) * FRACTION <= acc.eager
            <= (acc.paid + d) * FRACTION + (FRACTION - 1) * (acc.settlements + 1)
  {
    var scaled := s.staked * (m - s.multiplier);
    DivBounds(scaled, FRACTION);
    assert s.Settled(m).value.dividend == s.dividend + scaled / FRACTION;
  }

  lemma {:induction false} TracksCredit(s: Stake, acc: Account, m: nat, perStake: nat)
    requires Tracks(s, acc, m)
    ensures Tracks(s, acc.(eager := acc.eager + s.staked * perStake), m + perStake)
  {
    assert s.staked * (m + perStake - s.multiplier) == s.staked * (m - s.multiplier) + s.staked * perStake;
  }

  lemma {:induction false} QueuedLater(s: Stake, acc: Account, clock: nat, later: nat, delay: nat)
    requires Queued(s, acc, clock, delay)
    requires clock <= later
    ensures Queued(s, acc, later, delay)
  {
    UnstakedByMonotone(acc.unstakes, clock - delay, later - delay);
  }

  lemma {:induction false} QueuedReleased(s: Stake, acc: Account, now: Uint64, delay: Uint64)
    requires Queued(s, acc, now, delay)
    requires s.Released(now, delay).Ok?
    ensures Queued(s.Released(now, delay).value, acc, now, delay)
  {
    if s.beginTime.Some? && s.beginTime.value + delay <= now {
      UnstakedByAll(acc.unstakes, now - delay);
    }
  }

  lemma {:induction false} QueuedUnstake(s: Stake, acc: Account, now: Uint64, delay: Uint64, amount: nat)
    requires Queued(s, acc, now, delay)
    requires s.unstaking + amount < U128
    ensures Queued(s.(unstaking := s.unstaking + amount, beginTime := Some(now)),
                   acc.(unstakes := acc.unstakes + [Unstaking(now, amount)]), now, delay)
  {
    UnstakedAppend(acc.unstakes, Unstaking(now, amount), now - delay);
  }

  /** Raising the multiplier by what a deposit pays per staked token keeps a record on its eager credit. */
  lemma {:induction false} SoundCredited(s: Stake, acc: Account, m: nat, clock: nat, delay: nat, perStake: nat)
    requires Sound(s, acc, m, clock, delay)
    ensures Sound(s, acc.(eager := acc.eager + s.staked * perStake), m + perStake, clock, delay)
  {
    TracksCredit(s, acc, m, perStake);
  }

  lemma {:induction false} SoundSettled(s: Stake, acc: Account, m: Uint128, clock: nat, delay: nat)
    requires Sound(s, acc, m, clock, delay)
    requires s.Settled(m).Ok?
    ensures var r := s.Settled(m).value;
            && Sound(r, acc.(settlements := acc.settlements + 1), m, clock, delay)
            && r == s.(multiplier := m, dividend := r.dividend)
  {
    TracksSettled(s, acc, m);
  }

  /** Paying out a settled dividend moves it from the record to the account. */
  lemma {:induction false} SoundPaid(s: Stake, acc: Account, m: Uint128, clock: nat, delay: nat)
    requires Sound(s, acc, m, clock, delay)
    ensures Sound(s.(dividend := 0), acc.(paid := acc.paid + s.dividend), m, clock, delay)
  {
  }

  /** A settled record may change its stake: nothing is open against the multiplier. */
  lemma {:induction false} SoundRestaked(s: Stake, acc: Account, m: Uint128, clock: nat, delay: nat, staked: Uint128)
    requires Sound(s, acc, m, clock, delay)
    requires s.multiplier == m
    ensures Sound(s.(staked := staked), acc, m, clock, delay)
  {
  }

  lemma {:induction false} SoundUnstaked(s: Stake, acc: Account, m: Uint128, now: Uint64, delay: Uint64,
                                         amount: Uint128)
    requires Sound(s, acc, m, now, delay)
    requires s.multiplier == m
    requires UnstakedMore(s, now, delay, amount).Ok?
    ensures var r := UnstakedMore(s, now, delay, amount).value;
            && Sound(r, acc.(unstakes := acc.unstakes + [Unstaking(now, amount)]), m, now, delay)
            && r.staked + amount == s.staked
            && Tokens(r) == Tokens(s)
  {
    QueuedReleased(s, acc, now, delay);
    var released := s.Released(now, delay).value;
    QueuedUnstake(released, acc, now, delay, amount);
  }

  lemma {:induction false} SoundReleased(s: Stake, acc: Account, m: nat, now: Uint64, delay: Uint64)
    requires Sound(s, acc, m, now, delay)
    requires s.Released(now, delay).Ok?
    ensures var r := s.Released(now, delay).value;
            Sound(r, acc, m, now, delay) && Tokens(r) == Tokens(s) && r.staked == s.staked
  {
    QueuedReleased(s, acc, now, delay);
  }

  lemma {:induction false} SoundWithdrawn(s: Stake, acc: Account, m: nat, clock: nat, delay: nat, amount: nat)
    requires Sound(s, acc, m, clock, delay)
    requires amount <= s.unstaked
    ensures Sound(s.(unstaked := s.unstaked - amount), acc.(withdrawn := acc.withdrawn + amount), m, clock, delay)
  {
  }

  // The record of each call as a whole.

  lemma {:induction false} SoundReceived(s: Stake, acc: Account, m: Uint128, clock: nat, delay: nat, amount: nat)
    requires Sound(s, acc, m, clock, delay)
    requires s.Settled(m).Ok? && s.staked + amount < U128
    ensures var r := s.Settled(m).value.(staked := s.staked + amount);
            && Sound(r, acc.(settlements := acc.settlements + 1), m, clock, delay)
            && r.staked == s.staked + amount
            && Tokens(r) == Tokens(s) + amount
  {
    SoundSettled(s, acc, m, clock, delay);
    SoundRestaked(s.Settled(m).value, acc.(settlements := acc.settlements + 1), m, clock, delay, s.staked + amount);
  }

  lemma {:induction false} SoundSettledUnstaked(s: Stake, acc: Account, m: Uint128, now: Uint64, delay: Uint64,
                                                amount: Uint128)
    requires Sound(s, acc, m, now, delay)
    requires s.Settled(m).Ok? && UnstakedMore(s.Settled(m).value, now, delay, amount).Ok?
    ensures var r := UnstakedMore(s.Settled(m).value, now, delay, amount).value;
            && Sound(r, acc.(settlements := acc.settlements + 1,
                             unstakes := acc.unstakes + [Unstaking(now, amount)]), m, now, delay)
            && r.staked + amount == s.staked
            && Tokens(r) == Tokens(s)
  {
    SoundSettled(s, acc, m, now, delay);
    SoundUnstaked(s.Settled(m).value, acc.(settlements := acc.settlements + 1), m, now, delay, amount);
  }

  lemma {:induction false} SoundReleasedWithdrawn(s: Stake, acc: Account, m: nat, now: Uint64, delay: Uint64,
                                                  amount: nat)
    requires Sound(s, acc, m, now, delay)
    requires s.Released(now, delay).Ok? && amount <= s.Released(now, delay).value.unstaked
    ensures var released := s.Released(now, delay).value;
            var r := released.(unstaked := released.unstaked - amount);
            && Sound(r, acc.(withdrawn := acc.withdrawn + amount), m, now, delay)
            && r.staked == s.staked
            && Tokens(r) + amount == Tokens(s)
  {
    SoundReleased(s, acc, m, now, delay);
    SoundWithdrawn(s.Released(now, delay).value, acc, m, now, delay, amount);
  }

  lemma {:induction false} SoundSettledPaid(s: Stake, acc: Account, m: Uint128, clock: nat, delay: nat)
    requires Sound(s, acc, m, clock, delay)
    requires s.Settled(m).Ok?
    ensures var settled := s.Settled(m).value;
            var r := settled.(dividend := 0);
            && Sound(r, acc.(settlements := acc.settlements + 1, paid := acc.paid + settled.dividend), m, clock, delay)
            && r.staked == s.staked
            && Tokens(r) == Tokens(s)
  {
    SoundSettled(s, acc, m, clock, delay);
    SoundPaid(s.Settled(m).value, acc.(settlements := acc.settlements + 1), m, clock, delay);
  }

  // ----- Totals under the update of one record

  lemma {:induction false} PutStaked(stakes: map<Address, Stake>, who: Address, s: Stake)
    ensures Sum(StakedAmounts(stakes[who := s])) + (if who in stakes then stakes[who].staked else 0)
            == Sum(StakedAmounts(stakes)) + s.staked
  {
    SumPut(StakedAmounts(stakes), who, s.staked);
    assert StakedAmounts(stakes[who := s]) == StakedAmounts(stakes)[who := s.staked];
  }

  lemma {:induction false} PutTokens(stakes: map<Address, Stake>, who: Address, s: Stake)
    ensures Sum(TokenAmounts(stakes[who := s])) + (if who in stakes then Tokens(stakes[who]) else 0)
            == Sum(TokenAmounts(stakes)) + Tokens(s)
  {
    SumPut(TokenAmounts(stakes), who, Tokens(s));
    assert TokenAmounts(stakes[who := s]) == TokenAmounts(stakes)[who := Tokens(s)];
  }

  lemma {:induction false} PutCredit(accounts: map<Address, Account>, who: Address, acc: Account)
    ensures Sum(EagerCredits(accounts[who := acc])) + (if who in accounts then accounts[who].eager else 0)
            == Sum(EagerCredits(accounts)) + acc.eager
  {
    SumPut(EagerCredits(accounts), who, acc.eager);
    assert EagerCredits(accounts[who := acc]) == EagerCredits(accounts)[who := acc.eager];
  }

  lemma {:induction false} PutBalanced(p: Pool, q: Pool, l: Ledger, k: Ledger, who: Address, s: Stake, acc: Account)
    requires Balanced(p, l) && l.accounts.Keys == p.stakes.Keys
    requires q == p.(totalStaked := q.totalStaked, stakes := p.stakes[who := s])
    requires k == l.(tokensIn := k.tokensIn, tokensOut := k.tokensOut, accounts := l.accounts[who := acc])
    requires acc.eager == if who in p.stakes then l.accounts[who].eager else 0
    requires q.totalStaked + (if who in p.stakes then p.stakes[who].staked else 0) == p.totalStaked + s.staked
    requires Tokens(s) + k.tokensOut + l.tokensIn
             == (if who in p.stakes then Tokens(p.stakes[who]) else 0) + l.tokensOut + k.tokensIn
    ensures Balanced(q, k)
  {
    PutStaked(p.stakes, who, s);
    PutTokens(p.stakes, who, s);
    PutCredit(l.accounts, who, acc);
  }

  lemma {:induction false} PutSound(w: World, v: World, who: Address, s: Stake, acc: Account)
    requires AllSound(w)
    requires Sound(s, acc, w.pool.multiplier, w.clock, w.pool.config.unstakeDelay)
    requires v.clock == w.clock && v.pool.config == w.pool.config && v.pool.multiplier == w.pool.multiplier
    requires v.pool.stakes == w.pool.stakes[who := s] && v.ledger.accounts == w.ledger.accounts[who := acc]
    ensures AllSound(v)
  {
  }

  /** The world with one staker's record and account replaced and the totals set. */
  function Put(w: World, who: Address, s: Stake, acc: Account, total: Uint128, tokensIn: nat, tokensOut: nat): World {
    w.(pool := w.pool.(totalStaked := total, stakes := w.pool.stakes[who := s]),
       ledger := w.ledger.(tokensIn := tokensIn, tokensOut := tokensOut, accounts := w.ledger.accounts[who := acc]))
  }

  /** Replacing one staker's record and account by a pair that is right on its own keeps the whole invariant,
      provided the totals move by the same amounts. */
  lemma {:induction false} PutKeeps(w: World, v: World, who: Address, s: Stake, acc: Account, total: Uint128,
                                    tokensIn: nat, tokensOut: nat)
    requires Inv(w)
    requires v == Put(w, who, s, acc, total, tokensIn, tokensOut)
    requires Sound(s, acc, w.pool.multiplier, w.clock, w.pool.config.unstakeDelay)
    requires acc.eager == if who in w.pool.stakes then w.ledger.accounts[who].eager else 0
    requires total + (if who in w.pool.stakes then w.pool.stakes[who].staked else 0) == w.pool.totalStaked + s.staked
    requires Tokens(s) + tokensOut + w.ledger.tokensIn
             == (if who in w.pool.stakes then Tokens(w.pool.stakes[who]) else 0) + w.ledger.tokensOut + tokensIn
    ensures Inv(v)
  {
    PutBalanced(w.pool, v.pool, w.ledger, v.ledger, who, s, acc);
    PutSound(w, v, who, s, acc);
  }

  // ----- Every call keeps the invariant

  lemma {:induction false} ClockKeeps(w: World, now: nat)
    requires Inv(w) && w.clock <= now
    ensures Inv(w.(clock := now))
  {
    forall a | a in w.pool.stakes
      ensures Sound(w.pool.stakes[a], w.ledger.accounts[a], w.pool.multiplier, now, w.pool.config.unstakeDelay)
    {
      QueuedLater(w.pool.stakes[a], w.ledger.accounts[a], w.clock, now, w.pool.config.unstakeDelay);
    }
  }

  lemma {:induction false} CreditTotals(stakes: map<Address, Stake>, accounts: map<Address, Account>, perStake: nat)
    requires accounts.Keys == stakes.Keys
    ensures Sum(EagerCredits(CreditAll(accounts, stakes, perStake)))
            == Sum(EagerCredits(accounts)) + Times(Sum(StakedAmounts(stakes)), perStake)
  {
    SumLinear(EagerCredits(CreditAll(accounts, stakes, perStake)), EagerCredits(accounts),
              StakedAmounts(stakes), perStake);
  }

  lemma {:induction false} DepositFacts(p: Pool, env: Env)
    requires AfterDeposit(p, env).Ok?
    ensures var q := AfterDeposit(p, env).value.pool;
            && q == p.(multiplier := q.multiplier, residual := q.residual)
            && q.multiplier >= p.multiplier
            && q.residual <= env.funds + p.residual
            && var spent := env.funds + p.residual - q.residual;
               var credited := Times(p.totalStaked, q.multiplier - p.multiplier);
               spent * FRACTION <= credited
               <= spent * FRACTION + if p.totalStaked > 0 then FRACTION - 1 else 0
  {
    if p.totalStaked > 0 {
      DepositSplit(env.funds + p.residual, p.totalStaked);
    }
  }

  lemma {:induction false} DepositBalanced(p: Pool, q: Pool, l: Ledger, k: Ledger, funds: nat, perStake: nat)
    requires Balanced(p, l)
    requires l.accounts.Keys == p.stakes.Keys
    requires q == p.(multiplier := q.multiplier, residual := q.residual)
    requires k == l.(deposited := l.deposited + funds, distributions := k.distributions,
                     accounts := CreditAll(l.accounts, p.stakes, perStake))
    requires k.distributions == l.distributions + if p.totalStaked > 0 then 1 else 0
    requires q.residual <= funds + p.residual
    requires var spent := funds + p.residual - q.residual;
             spent * FRACTION <= Times(p.totalStaked, perStake)
             <= spent * FRACTION + if p.totalStaked > 0 then FRACTION - 1 else 0
    ensures Balanced(q, k)
  {
    CreditTotals(p.stakes, l.accounts, perStake);
  }

  lemma {:induction false} DepositNext(w: World, c: Call)
    requires c.action.Deposit? && Apply(w.pool, c).Ok?
    ensures var v := Next(w, c);
            && AfterDeposit(w.pool, c.env).Ok?
            && v.pool == AfterDeposit(w.pool, c.env).value.pool
            && v.clock == c.env.now
            && v.ledger == w.ledger.(
                 deposited := w.ledger.deposited + c.env.funds,
                 distributions := w.ledger.distributions + if w.pool.totalStaked > 0 then 1 else 0,
                 accounts := CreditAll(w.ledger.accounts, w.pool.stakes,
                                       SaturatingSub(v.pool.multiplier, w.pool.multiplier)))
  {
  }

  lemma {:induction false} AllCredited(w: World, v: World, perStake: nat)
    requires AllSound(w)
    requires v.pool == w.pool.(multiplier := v.pool.multiplier, residual := v.pool.residual)
    requires v.pool.multiplier == w.pool.multiplier + perStake
    requires v.ledger.accounts == CreditAll(w.ledger.accounts, w.pool.stakes, perStake)
    requires v.clock == w.clock
    ensures AllSound(v)
  {
    forall a | a in v.pool.stakes
      ensures Sound(v.pool.stakes[a], v.ledger.accounts[a], v.pool.multiplier, v.clock, v.pool.config.unstakeDelay)
    {
      SoundCredited(w.pool.stakes[a], w.ledger.accounts[a], w.pool.multiplier, w.clock,
                    w.pool.config.unstakeDelay, perStake);
    }
  }

  lemma {:induction false} DepositKeeps(w: World, c: Call)
    requires Inv(w) && w.clock == c.env.now
    requires c.action.Deposit? && Apply(w.pool, c).Ok?
    ensures Inv(Next(w, c))
  {
    DepositNext(w, c);
    DepositFacts(w.pool, c.env);
    var v := Next(w, c);
    var perStake := v.pool.multiplier - w.pool.multiplier;
    DepositBalanced(w.pool, v.pool, w.ledger, v.ledger, c.env.funds, perStake);
    AllCredited(w, v, perStake);
  }

  // What each call on one record stores, and what the observer books with it.

  lemma {:induction false} ReceiveNext(w: World, c: Call)
    requires c.action.Receive? && Apply(w.pool, c).Ok?
    ensures var who, amount := c.action.tokenSender, c.action.amount;
            var acc := if who in w.ledger.accounts then w.ledger.accounts[who] else FRESH_ACCOUNT;
            && StakedMore(w.pool, who, amount).Ok?
            && w.pool.totalStaked + amount < U128
            && Next(w, c) == Put(w, who, StakedMore(w.pool, who, amount).value,
                                 acc.(settlements := acc.settlements + if who in w.pool.stakes then 1 else 0),
                                 w.pool.totalStaked + amount, w.ledger.tokensIn + amount, w.ledger.tokensOut)
                             .(clock := c.env.now)
  {
  }

  lemma {:induction false} UnstakeNext(w: World, c: Call)
    requires c.action.Unstake? && Apply(w.pool, c).Ok?
    requires c.env.sender in w.ledger.accounts
    ensures var who, amount, p := c.env.sender, c.action.amount, w.pool;
            var acc := w.ledger.accounts[who];
            && who in p.stakes && p.stakes[who].Settled(p.multiplier).Ok? && amount <= p.totalStaked
            && (var more := UnstakedMore(p.stakes[who].Settled(p.multiplier).value, c.env.now,
                                         p.config.unstakeDelay, amount);
                && more.Ok?
                && Next(w, c) == Put(w, who, more.value,
                                     acc.(settlements := acc.settlements + 1,
                                          unstakes := acc.unstakes + [Unstaking(c.env.now, amount)]),
                                     p.totalStaked - amount, w.ledger.tokensIn, w.ledger.tokensOut)
                                 .(clock := c.env.now))
  {
  }

  lemma {:induction false} WithdrawTokensNext(w: World, c: Call)
    requires c.action.WithdrawTokens? && Apply(w.pool, c).Ok?
    requires c.env.sender in w.ledger.accounts
    ensures var who, amount, p := c.env.sender, c.action.amount, w.pool;
            var acc := w.ledger.accounts[who];
            && who in p.stakes && p.stakes[who].Released(c.env.now, p.config.unstakeDelay).Ok?
            && (var released := p.stakes[who].Released(c.env.now, p.config.unstakeDelay).value;
                && amount <= released.unstaked
                && Next(w, c) == Put(w, who, released.(unstaked := released.unstaked - amount),
                                     acc.(withdrawn := acc.withdrawn + amount),
                                     p.totalStaked, w.ledger.tokensIn, w.ledger.tokensOut + amount)
                                 .(clock := c.env.now))
  {
    OneMessage(Apply(w.pool, c).value.messages[0]);
  }

  lemma {:induction false} WithdrawDividendsNext(w: World, c: Call)
    requires c.action.WithdrawDividends? && Apply(w.pool, c).Ok?
    requires c.env.sender in w.ledger.accounts
    ensures var who, p := c.env.sender, w.pool;
            var acc := w.ledger.accounts[who];
            && who in p.stakes && p.stakes[who].Settled(p.multiplier).Ok?
            && (var settled := p.stakes[who].Settled(p.multiplier).value;
                Next(w, c) == Put(w, who, settled.(dividend := 0),
                                  acc.(settlements := acc.settlements + 1, paid := acc.paid + settled.dividend),
                                  p.totalStaked, w.ledger.tokensIn, w.ledger.tokensOut)
                              .(clock := c.env.now))
  {
    OneMessage(Apply(w.pool, c).value.messages[0]);
  }

  lemma {:induction false} ReceiveNewKeeps(w: World, c: Call)
    requires Inv(w) && w.clock == c.env.now
    requires c.action.Receive? && Apply(w.pool, c).Ok?
    requires c.action.tokenSender !in w.pool.stakes
    ensures Inv(Next(w, c))
  {
    ReceiveNext(w, c);
    PutKeeps(w, Next(w, c), c.action.tokenSender, Stake(c.action.amount, 0, None, 0, w.pool.multiplier, 0),
             FRESH_ACCOUNT, w.pool.totalStaked + c.action.amount, w.ledger.tokensIn + c.action.amount,
             w.ledger.tokensOut);
  }

  lemma {:induction false} ReceiveOldRecord(w: World, c: Call) returns (r: Stake, k: Account)
    requires AllSound(w) && w.clock == c.env.now
    requires c.action.Receive? && Apply(w.pool, c).Ok?
    requires c.action.tokenSender in w.pool.stakes
    ensures var who, amount, p := c.action.tokenSender, c.action.amount, w.pool;
            && p.totalStaked + amount < U128
            && Next(w, c) == Put(w, who, r, k, p.totalStaked + amount, w.ledger.tokensIn + amount, w.ledger.tokensOut)
            && Sound(r, k, p.multiplier, w.clock, p.config.unstakeDelay)
            && r.staked == p.stakes[who].staked + amount
            && Tokens(r) == Tokens(p.stakes[who]) + amount
            && k.eager == w.ledger.accounts[who].eager
  {
    var who, m, amount := c.action.tokenSender, w.pool.multiplier, c.action.amount;
    var s, acc := w.pool.stakes[who], w.ledger.accounts[who];
    ReceiveNext(w, c);
    SoundReceived(s, acc, m, w.clock, w.pool.config.unstakeDelay, amount);
    r := s.Settled(m).value.(staked := s.staked + amount);
    k := acc.(settlements := acc.settlements + 1);
  }

  lemma {:induction false} ReceiveOldKeeps(w: World, c: Call)
    requires Inv(w) && w.clock == c.env.now
    requires c.action.Receive? && Apply(w.pool, c).Ok?
    requires c.action.tokenSender in w.pool.stakes
    ensures Inv(Next(w, c))
  {
    var amount := c.action.amount;
    var r, k := ReceiveOldRecord(w, c);
    PutKeeps(w, Next(w, c), c.action.tokenSender, r, k, w.pool.totalStaked + amount, w.ledger.tokensIn + amount,
             w.ledger.tokensOut);
  }

  lemma {:induction false} UnstakeRecord(w: World, c: Call) returns (r: Stake, k: Account)
    requires AllSound(w) && w.clock == c.env.now
    requires c.action.Unstake? && Apply(w.pool, c).Ok?
    ensures var who, p := c.env.sender, w.pool;
            && who in p.stakes && c.action.amount <= p.totalStaked
            && Next(w, c) == Put(w, who, r, k, p.totalStaked - c.action.amount, w.ledger.tokensIn, w.ledger.tokensOut)
            && Sound(r, k, p.multiplier, w.clock, p.config.unstakeDelay)
            && r.staked + c.action.amount == p.stakes[who].staked
            && Tokens(r) == Tokens(p.stakes[who])
            && k.eager == w.ledger.accounts[who].eager
  {
    var who, m, delay, amount := c.env.sender, w.pool.multiplier, w.pool.config.unstakeDelay, c.action.amount;
    var s, acc := w.pool.stakes[who], w.ledger.accounts[who];
    UnstakeNext(w, c);
    SoundSettledUnstaked(s, acc, m, c.env.now, delay, amount);
    r := UnstakedMore(s.Settled(m).value, c.env.now, delay, amount).value;
    k := acc.(settlements := acc.settlements + 1, unstakes := acc.unstakes + [Unstaking(c.env.now, amount)]);
  }

  lemma {:induction false} UnstakeKeeps(w: World, c: Call)
    requires Inv(w) && w.clock == c.env.now
    requires c.action.Unstake? && Apply(w.pool, c).Ok?
    ensures Inv(Next(w, c))
  {
    var r, k := UnstakeRecord(w, c);
    PutKeeps(w, Next(w, c), c.env.sender, r, k, w.pool.totalStaked - c.action.amount,
             w.ledger.tokensIn, w.ledger.tokensOut);
  }

  lemma {:induction false} WithdrawTokensKeeps(w: World, c: Call)
    requires Inv(w) && w.clock == c.env.now
    requires c.action.WithdrawTokens? && Apply(w.pool, c).Ok?
    ensures Inv(Next(w, c))
  {
    var who, delay, amount := c.env.sender, w.pool.config.unstakeDelay, c.action.amount;
    var s, acc := w.pool.stakes[who], w.ledger.accounts[who];
    WithdrawTokensNext(w, c);
    SoundReleasedWithdrawn(s, acc, w.pool.multiplier, c.env.now, delay, amount);
    var released := s.Released(c.env.now, delay).value;
    PutKeeps(w, Next(w, c), who, released.(unstaked := released.unstaked - amount),
             acc.(withdrawn := acc.withdrawn + amount),
             w.pool.totalStaked, w.ledger.tokensIn, w.ledger.tokensOut + amount);
  }

  lemma {:induction false} WithdrawDividendsRecord(w: World, c: Call) returns (r: Stake, k: Account)
    requires AllSound(w) && w.clock == c.env.now
    requires c.action.WithdrawDividends? && Apply(w.pool, c).Ok?
    ensures var who, p := c.env.sender, w.pool;
            && who in p.stakes
            && Next(w, c) == Put(w, who, r, k, p.totalStaked, w.ledger.tokensIn, w.ledger.tokensOut)
            && Sound(r, k, p.multiplier, w.clock, p.config.unstakeDelay)
            && r.staked == p.stakes[who].staked
            && Tokens(r) == Tokens(p.stakes[who])
            && k.eager == w.ledger.accounts[who].eager
  {
    var who, m := c.env.sender, w.pool.multiplier;
    var s, acc := w.pool.stakes[who], w.ledger.accounts[who];
    WithdrawDividendsNext(w, c);
    SoundSettledPaid(s, acc, m, w.clock, w.pool.config.unstakeDelay);
    var settled := s.Settled(m).value;
    r := settled.(dividend := 0);
    k := acc.(settlements := acc.settlements + 1, paid := acc.paid + settled.dividend);
  }

  lemma {:induction false} WithdrawDividendsKeeps(w: World, c: Call)
    requires Inv(w) && w.clock == c.env.now
    requires c.action.WithdrawDividends? && Apply(w.pool, c).Ok?
    ensures Inv(Next(w, c))
  {
    var r, k := WithdrawDividendsRecord(w, c);
    PutKeeps(w, Next(w, c), c.env.sender, r, k, w.pool.totalStaked, w.ledger.tokensIn, w.ledger.tokensOut);
  }

  /** Every call, accepted or aborted, keeps the invariant. */
  lemma {:induction false} NextKeepsInv(w: World, c: Call)
    requires Inv(w)
    requires w.clock <= c.env.now
    ensures Inv(Next(w, c))
  {
    var v := w.(clock := c.env.now);
    ClockKeeps(w, c.env.now);
    assert Next(v, c) == Next(w, c);
    if Apply(w.pool, c).Ok? {
      match c.action
      case Deposit => DepositKeeps(v, c);
      case Receive(who, _) =>
        if who in w.pool.stakes {
          ReceiveOldKeeps(v, c);
        } else {
          ReceiveNewKeeps(v, c);
        }
      case Unstake(_) => UnstakeKeeps(v, c);
      case WithdrawTokens(_, _) => WithdrawTokensKeeps(v, c);
      case WithdrawDividends(_) => WithdrawDividendsKeeps(v, c);
    }
  }

  lemma {:induction false} RunKeepsInv(config: Config, clock: nat, calls: seq<Call>)
    requires Timely(clock, calls)
    ensures Inv(Run(Start(config, clock), calls))
  {
    var start := Start(config, clock);
    if calls != [] {
      var n := |calls| - 1;
      RunKeepsInv(config, clock, calls[..n]);
      RunClock(start, calls[..n]);
      NextKeepsInv(Run(start, calls[..n]), calls[n]);
    }
  }
}
